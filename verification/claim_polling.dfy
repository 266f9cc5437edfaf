/**
  How many polls a claim sees accepted (packages/service/src/claim.ts:121-152): the bound its lifetime and
  interval suggest, where the two clock readings of a poll break it, and runs that reach both.
 */
module ClaimPolling {
  import opened Wrappers
  import opened ClaimRules
  import opened ClaimInterleaving

  function CeilDiv(a: int, b: int): int
    requires b > 0
  {
    (a + b - 1) / b
  }

  /** The number of intervals a claim lives, rounded up. */
  function Slots(options: Options): int
    requires options.initialIntervalSeconds > 0
  {
    CeilDiv(options.expiresInSeconds, options.initialIntervalSeconds)
  }

  lemma FitsIn(n: int, total: int, step: int)
    requires step > 0
    ensures n * step < total <==> n < CeilDiv(total, step)
  {
    hide CeilDiv;
    var q := CeilDiv(total, step);
    CeilDivIs(total, step);
    if n < q {
      Times(n, q - 1, step);
    } else {
      Times(q, n, step);
    }
  }

  lemma CeilDivIs(total: int, step: int)
    requires step > 0
    ensures (CeilDiv(total, step) - 1) * step < total <= CeilDiv(total, step) * step
  {
    var q := (total + step - 1) / step;
    assert total + step - 1 == q * step + (total + step - 1) % step;
    assert (q - 1) * step == q * step - step;
  }

  lemma Times(a: int, b: int, step: int)
    requires a <= b && step > 0
    ensures a * step <= b * step
  {
  }

  // --- the bounds ---

  /** Before its deadline a claim sees at most `ceil(expiresInSeconds / initialIntervalSeconds)` accepted polls. */
  lemma PollsAreBounded(options: Options, acts: seq<Action>, k: nat)
    requires Legal(options, acts) && k < |After(options, acts).log| && After(options, acts).log[k].kind.Polled?
    requires options.initialIntervalSeconds > 0
    requires After(options, acts).log[k].at < After(options, acts).log[k].claim.expiresAt
    ensures Count(After(options, acts).log[..k + 1], After(options, acts).log[k].id, Polled) <= Slots(options)
  {
    hide Inv, UnusedInTime;
    var log := After(options, acts).log;
    LoggedIsOk(options, acts, k);
    CountOneMore(log, k, log[k].id, Polled);
    var n := Count(log[..k], log[k].id, Polled);
    assert n * options.initialIntervalSeconds * 1000 < options.expiresInSeconds * 1000;
    FitsIn(n, options.expiresInSeconds, options.initialIntervalSeconds);
  }

  lemma LoggedIsOk(options: Options, acts: seq<Action>, k: nat)
    requires Legal(options, acts) && k < |After(options, acts).log|
    ensures EntryOk(options, After(options, acts).log[..k], After(options, acts).log[k])
  {
    Reachable(options, acts);
  }

  lemma CountOneMore(log: seq<Entry>, k: nat, id: string, kind: Kind)
    requires k < |log|
    ensures Count(log[..k + 1], id, kind) == Count(log[..k], id, kind) + if log[k].id == id && log[k].kind == kind then 1 else 0
  {
    assert log[..k + 1] == log[..k] + [log[k]];
    Appended(log[..k], log[k], id);
  }

  /** The last accepted poll among the first `m` entries. */
  lemma {:induction false} LastPolled(log: seq<Entry>, m: nat, id: string) returns (k: nat)
    requires m <= |log| && Count(log[..m], id, Polled) > 0
    ensures k < m && log[k].id == id && log[k].kind.Polled?
    ensures Count(log[..m], id, Polled) == Count(log[..k], id, Polled) + 1
    ensures Count(log[..k], id, Used) <= Count(log[..m], id, Used)
  {
    CountOneMore(log, m - 1, id, Polled);
    CountOneMore(log, m - 1, id, Used);
    if log[m - 1].id == id && log[m - 1].kind.Polled? {
      k := m - 1;
    } else {
      k := LastPolled(log, m - 1, id);
    }
  }

  /** Every accepted poll of the claim was checked against its deadline by the reading it was accepted by. */
  ghost predicate OneReading(log: seq<Entry>, id: string) {
    forall k :: 0 <= k < |log| && log[k].id == id && log[k].kind.Polled? ==> log[k].checkedAt == log[k].at
  }

  /**
    Until its grant is used a claim sees at most one accepted poll more than the intervals it lives, and none
    more if the check and the write of each poll read one clock value.
   */
  lemma PollsBeforeUse(options: Options, acts: seq<Action>, m: nat, id: string)
    requires Legal(options, acts) && m <= |After(options, acts).log| && options.initialIntervalSeconds > 0
    requires Count(After(options, acts).log[..m], id, Used) == 0 < Count(After(options, acts).log[..m], id, Polled)
    ensures Count(After(options, acts).log[..m], id, Polled) <= Slots(options) + 1
    ensures OneReading(After(options, acts).log[..m], id) ==>
              Count(After(options, acts).log[..m], id, Polled) <= Slots(options)
  {
    hide After, Legal;
    var log := After(options, acts).log;
    var k := LastPolled(log, m, id);
    LoggedIsOk(options, acts, k);
    UnusedPoll(options, log[..k], log[k]);
    assert log[k] == log[..m][k];
    if log[k].checkedAt == log[k].at {
      CountOneMore(log, k, id, Polled);
      PollsAreBounded(options, acts, k);
    }
  }

  lemma UnusedPoll(options: Options, before: seq<Entry>, e: Entry)
    requires EntryOk(options, before, e) && e.kind.Polled? && Count(before, e.id, Used) == 0
    requires options.initialIntervalSeconds > 0
    ensures e.checkedAt < e.claim.expiresAt && Count(before, e.id, Polled) <= Slots(options)
  {
    var n, i := Count(before, e.id, Polled), options.initialIntervalSeconds;
    if n > 0 {
      assert (n - 1) * i * 1000 < options.expiresInSeconds * 1000;
      FitsIn(n - 1, options.expiresInSeconds, i);
    } else {
      FitsIn(-1, options.expiresInSeconds, i);
    }
  }

  // --- one operation after the other ---

  lemma OneMoreStep(options: Options, acts: seq<Action>, a: Action)
    requires Legal(options, acts) && Enabled(options, After(options, acts), a)
    ensures Legal(options, acts + [a]) && After(options, acts + [a]) == Apply(options, After(options, acts), a)
  {
    hide Enabled, Apply;
    assert (acts + [a])[..|acts|] == acts;
  }

  /** Up to the second reading: the deadline is checked in time and the write decided on. */
  lemma Decides(options: Options, acts: seq<Action>, op: Op, id: string, wait: nat, work: nat) returns (next: seq<Action>)
    requires Legal(options, acts) && id in After(options, acts).claims && (op.Verify? ==> options.maxVerificationAttempts >= 1)
    requires
      var s := After(options, acts);
      !NeedsExpiry(s.claims[id], s.clock + wait) && Answer(options, op, s.claims[id], s.clock + wait + work).Write?
    ensures Legal(options, next)
    ensures
      var s, s' := After(options, acts), After(options, next);
      && s' == s.(clock := s.clock + wait + work, threads := s'.threads) && |s'.threads| == |s.threads| + 1
      && s'.threads[|s.threads|] == Writing(op, s.claims[id], s.clock + wait, s.clock + wait + work)
  {
    hide NeedsExpiry, Answer;
    var t := |After(options, acts).threads|;
    OneMoreStep(options, acts, Tick(wait));
    next := acts + [Tick(wait)];
    OneMoreStep(options, next, Read(op, id));
    next := next + [Read(op, id)];
    OneMoreStep(options, next, CheckExpiry(t));
    next := next + [CheckExpiry(t)];
    OneMoreStep(options, next, Tick(work));
    next := next + [Tick(work)];
    OneMoreStep(options, next, Act(t));
    next := next + [Act(t)];
  }

  /** An operation nobody interferes with stores its answer. */
  lemma Performs(options: Options, acts: seq<Action>, op: Op, id: string, wait: nat, work: nat) returns (next: seq<Action>)
    requires Legal(options, acts) && id in After(options, acts).claims && After(options, acts).claims[id].id == id
    requires op.Verify? ==> options.maxVerificationAttempts >= 1
    requires
      var s := After(options, acts);
      !NeedsExpiry(s.claims[id], s.clock + wait) && Answer(options, op, s.claims[id], s.clock + wait + work).Write?
    ensures Legal(options, next)
    ensures
      var s, s' := After(options, acts), After(options, next);
      var now := s.clock + wait + work;
      var d := Answer(options, op, s.claims[id], now);
      && s'.clock == now && s'.claims == s.claims[id := d.next]
      && s'.log == s.log + [Entry(KindOf(op, d), id, s.clock + wait, now, d.next)]
  {
    hide NeedsExpiry, Answer;
    var s := After(options, acts);
    next := Decides(options, acts, op, id, wait, work);
    AnswerKeepsId(options, op, s.claims[id], s.clock + wait + work);
    OneMoreStep(options, next, Swap(|s.threads|));
    next := next + [Swap(|s.threads|)];
  }

  // --- both bounds are reached ---

  const ID := "claim"

  function Fresh(options: Options): Claim {
    NewClaim(options, ID, "identity", "user", "device", [], None, 0)
  }

  /** The claim after `n` accepted polls, one an interval, and nothing else. */
  function PolledTimes(options: Options, n: nat): Claim {
    Fresh(options).(version := 1 + n, lastPollAt := if n == 0 then None else Some(PollTime(options, n - 1)))
  }

  ghost predicate OnlyPolled(options: Options, acts: seq<Action>, n: nat, late: bool) {
    && Legal(options, acts)
    && var s := After(options, acts);
       && s.claims == map[ID := PolledTimes(options, n)]
       && s.clock == (if n == 0 then 0 else PollTime(options, n - 1))
       && Count(s.log, ID, Polled) == n && Count(s.log, ID, Used) == 0 && (!late ==> OneReading(s.log, ID))
  }

  lemma StartsAlone(options: Options) returns (acts: seq<Action>)
    ensures Legal(options, acts) && |acts| == 1
    ensures
      var s := After(options, acts);
      && s.claims == map[ID := Fresh(options)] && s.clock == 0 && |s.log| == 1 && s.log[0].kind.Created? && s.threads == []
  {
    var start := Start(ID, "identity", "user", "device", [], None);
    assert Legal(options, []) && Enabled(options, After(options, []), start);
    OneMoreStep(options, [], start);
    acts := [] + [start];
  }

  lemma CountOfOne(log: seq<Entry>, kind: Kind)
    requires |log| == 1 && log[0].kind.Created? && !kind.Created?
    ensures Count(log, ID, kind) == 0
  {
    assert log[..0] == [];
  }

  /** When the n-th poll is made, counting from zero. */
  function PollTime(options: Options, n: int): int {
    n * options.initialIntervalSeconds * 1000
  }

  lemma PollTimes(options: Options, n: nat)
    ensures PollTime(options, 0) == 0 && PollTime(options, n) == PollTime(options, n - 1) + options.initialIntervalSeconds * 1000
  {
    assert n * options.initialIntervalSeconds == (n - 1) * options.initialIntervalSeconds + options.initialIntervalSeconds;
  }

  /** A poll an interval after the last is accepted. */
  lemma PollIsAccepted(options: Options, n: nat)
    ensures Answer(options, Poll, PolledTimes(options, n), PollTime(options, n)) == Write(PolledTimes(options, n + 1), None)
  {
    PollTimes(options, n);
    hide PollTime;
  }

  /** It is checked in time, early or late. */
  lemma PollIsInTime(options: Options, n: nat, late: bool)
    requires options.initialIntervalSeconds > 0 && options.expiresInSeconds > 0
    requires if late then n <= Slots(options) else n < Slots(options)
    ensures !NeedsExpiry(PolledTimes(options, n), if late && n > 0 then PollTime(options, n - 1) else PollTime(options, n))
  {
    hide Slots;
    InSlots(options, n);
    PollTimes(options, n);
  }

  /**
    One more poll an interval after the last: `late` ones check the deadline at once and write an interval
    later, the others wait first and then check and write by one reading.
   */
  lemma PollsOnceMore(options: Options, acts: seq<Action>, n: nat, late: bool) returns (next: seq<Action>)
    requires options.initialIntervalSeconds > 0 && options.expiresInSeconds > 0
    requires OnlyPolled(options, acts, n, late) && (if late then n <= Slots(options) else n < Slots(options))
    ensures OnlyPolled(options, next, n + 1, late)
  {
    hide Legal, After, Slots, PollTime, PolledTimes, NeedsExpiry, Answer;
    var s := After(options, acts);
    PolledIsTheClaim(options, n);
    PollTimes(options, n);
    PollIsInTime(options, n, late);
    PollIsAccepted(options, n);
    var gap := if n == 0 then 0 else options.initialIntervalSeconds * 1000;
    var wait, work := if late then 0 else gap, if late then gap else 0;
    next := Performs(options, acts, Poll, ID, wait, work);
    var e := Entry(Polled, ID, s.clock + wait, PollTime(options, n), PolledTimes(options, n + 1));
    Appended(s.log, e, ID);
  }

  lemma PolledIsTheClaim(options: Options, n: nat)
    ensures PolledTimes(options, n).id == ID
  {
  }

  lemma InSlots(options: Options, n: nat)
    requires options.initialIntervalSeconds > 0
    ensures n > 0 && n <= Slots(options) ==> (n - 1) * options.initialIntervalSeconds < options.expiresInSeconds
    ensures n < Slots(options) ==> n * options.initialIntervalSeconds < options.expiresInSeconds
  {
    FitsIn(n - 1, options.expiresInSeconds, options.initialIntervalSeconds);
    FitsIn(n, options.expiresInSeconds, options.initialIntervalSeconds);
  }

  lemma {:induction false} PollsMany(options: Options, n: nat, late: bool) returns (acts: seq<Action>)
    requires options.initialIntervalSeconds > 0 && options.expiresInSeconds > 0
    requires n <= if late then Slots(options) + 1 else Slots(options)
    ensures OnlyPolled(options, acts, n, late)
  {
    if n == 0 {
      acts := StartsAlone(options);
      CountOfOne(After(options, acts).log, Polled);
      CountOfOne(After(options, acts).log, Used);
    } else {
      acts := PollsMany(options, n - 1, late);
      acts := PollsOnceMore(options, acts, n - 1, late);
    }
  }

  /** Both bounds are reached, whatever the lifetime and the interval: the last poll is checked in time and written late. */
  lemma PollBoundsAreReached(options: Options, late: bool) returns (acts: seq<Action>)
    requires options.initialIntervalSeconds > 0 && options.expiresInSeconds > 0
    ensures Legal(options, acts) && Count(After(options, acts).log, ID, Used) == 0
    ensures Count(After(options, acts).log, ID, Polled) == if late then Slots(options) + 1 else Slots(options)
    ensures !late ==> OneReading(After(options, acts).log, ID)
  {
    FitsIn(0, options.expiresInSeconds, options.initialIntervalSeconds);
    acts := PollsMany(options, if late then Slots(options) + 1 else Slots(options), late);
  }

  // --- a used claim is never expired ---

  ghost predicate UsedAndPolled(options: Options, acts: seq<Action>, n: nat) {
    && Legal(options, acts)
    && var s := After(options, acts);
       && ID in s.claims && s.claims[ID].id == ID && s.claims[ID].status.Approved? && s.claims[ID].grantUsedAt.Some?
       && s.claims[ID].intervalSeconds == options.initialIntervalSeconds
       && (s.claims[ID].lastPollAt.Some? ==> s.claims[ID].lastPollAt.value <= s.clock)
       && Count(s.log, ID, Used) == 1 && Count(s.log, ID, Polled) == n
  }

  lemma UsedAtOnce(options: Options) returns (acts: seq<Action>)
    requires options.maxVerificationAttempts >= 1 && options.expiresInSeconds > 0
    ensures UsedAndPolled(options, acts, 0)
  {
    hide Legal, After;
    acts := StartsAlone(options);
    var c := Fresh(options);
    CountOfOne(After(options, acts).log, Polled);
    CountOfOne(After(options, acts).log, Used);
    var log := After(options, acts).log;
    acts := Performs(options, acts, Verify, ID, 0, 0);
    var verified := Answer(options, Verify, c, 0).next;
    Appended(log, Entry(Verified, ID, 0, 0, verified), ID);
    log := After(options, acts).log;
    acts := Performs(options, acts, Decide(true), ID, 0, 0);
    var approved := Answer(options, Decide(true), verified, 0).next;
    Appended(log, Entry(ApprovedIt, ID, 0, 0, approved), ID);
    log := After(options, acts).log;
    acts := Performs(options, acts, Consume, ID, 0, 0);
    Appended(log, Entry(Used, ID, 0, 0, Answer(options, Consume, approved, 0).next), ID);
  }

  lemma PollsUsedOnceMore(options: Options, acts: seq<Action>, n: nat) returns (next: seq<Action>)
    requires UsedAndPolled(options, acts, n)
    ensures UsedAndPolled(options, next, n + 1)
  {
    hide Legal, After;
    var s := After(options, acts);
    var i := options.initialIntervalSeconds;
    var wait := if i > 0 then i * 1000 else 0;
    assert !TooEarly(s.claims[ID], s.clock + wait);
    next := Performs(options, acts, Poll, ID, wait, 0);
    var now := s.clock + wait;
    Appended(s.log, Entry(Polled, ID, now, now, Answer(options, Poll, s.claims[ID], now).next), ID);
  }

  /** Once its grant is used a claim can be polled any number of times, deadline or not. */
  lemma {:induction false} UsedIsPolledForEver(options: Options, n: nat) returns (acts: seq<Action>)
    requires options.maxVerificationAttempts >= 1 && options.expiresInSeconds > 0
    ensures UsedAndPolled(options, acts, n)
  {
    if n == 0 {
      acts := UsedAtOnce(options);
    } else {
      acts := UsedIsPolledForEver(options, n - 1);
      acts := PollsUsedOnceMore(options, acts, n - 1);
    }
  }
}
