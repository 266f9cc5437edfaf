/**
  What a delivery record says about the answers its subscriber gave (packages/service/src/service.ts:705-758),
  over every run of alarm firings.
 */
module EventDeliveryLaws {
  import opened Wrappers
  import opened Doubling
  import opened EventDeliveryModel

  /** What one listing of a delivery came to: its event or subscriber was gone, or it was sent and answered. */
  datatype Answer = Missing(at: int) | Sent(at: int, outcome: Outcome)

  predicate Refused(a: Answer) {
    a.Sent? && a.outcome.Rejected?
  }

  /** The answers to a delivery during some firings, of which `sends` had been made before. */
  function Answers(st: Store, firings: seq<Firing>, limit: nat, id: string, sends: nat): seq<Answer>
    decreases |firings|
  {
    if firings == [] then []
    else
      var f := firings[0];
      var rest := Round(st, f.env, f.now, limit);
      if id !in st.deliveries || st.deliveries[id] !in ListDue(st, f.now, limit) then Answers(rest, firings[1..], limit, id, sends)
      else if !f.env.known(st.deliveries[id]) then [Missing(f.now)] + Answers(rest, firings[1..], limit, id, sends)
      else [Sent(f.now, f.env.fetch(id, sends + 1))] + Answers(rest, firings[1..], limit, id, sends + 1)
  }

  function Attempts(h: seq<Answer>): nat {
    if h == [] then 0 else Attempts(h[..|h| - 1]) + if h[|h| - 1].Sent? then 1 else 0
  }

  ghost predicate AllRefused(h: seq<Answer>) {
    forall k :: 0 <= k < |h| ==> Refused(h[k])
  }

  /** Seconds until the next attempt after so many refusals. */
  function Delay(refusals: nat): int {
    if refusals == 1 then 2 else if refusals == 2 then 4 else if refusals == 3 then 8 else 16
  }

  /**
    The record after the answers `h`, `first` being when it was to be sent: only the last answer can have
    settled it.
   */
  ghost predicate Tells(h: seq<Answer>, d: EventDelivery, first: int) {
    && (h != [] ==> AllRefused(h[..|h| - 1]))
    && d.attempts == Attempts(h)
    && d.lastAttemptAt == (if h == [] then None else Some(h[|h| - 1].at))
    && (d.status.Delivered? <==> h != [] && h[|h| - 1].Sent? && h[|h| - 1].outcome.Accepted?)
    && d.receipt == (if d.status.Delivered? then h[|h| - 1].outcome.receipt else None)
    && (d.status.Failed? <==> h != [] && (h[|h| - 1].Missing? || (AllRefused(h) && |h| == 5)))
    && (d.status.Pending? ==>
          |h| < 5 && AllRefused(h) && d.nextAttemptAt == if h == [] then first else h[|h| - 1].at + Delay(|h|) * 1000)
  }

  lemma {:induction false} RefusedSends(h: seq<Answer>)
    requires AllRefused(h)
    ensures Attempts(h) == |h|
  {
    if h != [] {
      RefusedSends(h[..|h| - 1]);
    }
  }

  /** One more answer, and the record it leaves. */
  lemma AnswerTells(h: seq<Answer>, d: EventDelivery, first: int, env: Env, now: int)
    requires Tells(h, d, first) && d.status.Pending?
    ensures Tells(h + [if env.known(d) then Sent(now, env.fetch(d.id, d.attempts + 1)) else Missing(now)], Attempted(d, env, now), first)
  {
    var a := if env.known(d) then Sent(now, env.fetch(d.id, d.attempts + 1)) else Missing(now);
    var h' := h + [a];
    assert h'[..|h'| - 1] == h;
    RefusedSends(h);
    assert AllRefused(h') <==> Refused(a) by {
      assert h'[|h|] == a;
    }
    assert Power2(0) == 1 && Power2(1) == 2 && Power2(2) == 4 && Power2(3) == 8 && Power2(4) == 16;
  }

  /** What one firing does to a delivery: nothing, unless it is listed. */
  lemma RoundAt(st: Store, f: Firing, limit: nat, id: string)
    requires Valid(st) && id in st.deliveries
    ensures
      var st' := Round(st, f.env, f.now, limit);
      var d := st.deliveries[id];
      && Valid(st') && id in st'.deliveries && d.id == id
      && st'.deliveries[id] == (if d in ListDue(st, f.now, limit) then Attempted(d, f.env, f.now) else d)
      && (d in ListDue(st, f.now, limit) ==> d.status.Pending?)
  {
    hide ListDue, Attempted;
    RoundIsGood(st, f.env, f.now, limit);
    ListDueIs(st, f.now, limit);
    var due := ListDue(st, f.now, limit);
    DeliverListedAt(st.deliveries, due, f.env, f.now);
    assert RecordOk(st.deliveries[id], id);
    if st.deliveries[id] !in due {
      assert forall e :: e in due ==> e.id != id;
    }
  }

  lemma {:induction false} TellsOn(st: Store, firings: seq<Firing>, limit: nat, id: string, h: seq<Answer>, first: int)
    requires Valid(st) && id in st.deliveries && Tells(h, st.deliveries[id], first)
    ensures
      var last := AfterFirings(st, firings, limit);
      id in last.deliveries && Tells(h + Answers(st, firings, limit, id, st.deliveries[id].attempts), last.deliveries[id], first)
    decreases |firings|
  {
    hide Tells, Round, ListDue, Valid;
    var d := st.deliveries[id];
    if firings == [] {
      assert h + [] == h;
    } else {
      var f := firings[0];
      var st' := Round(st, f.env, f.now, limit);
      RoundAt(st, f, limit, id);
      var n := d.attempts;
      if d in ListDue(st, f.now, limit) {
        AnswerTells(h, d, first, f.env, f.now);
        AttemptCounts(d, f.env, f.now);
        var a := if f.env.known(d) then Sent(f.now, f.env.fetch(id, n + 1)) else Missing(f.now);
        TellsOn(st', firings[1..], limit, id, h + [a], first);
        var rest := Answers(st', firings[1..], limit, id, st'.deliveries[id].attempts);
        assert h + [a] + rest == h + ([a] + rest);
      } else {
        TellsOn(st', firings[1..], limit, id, h, first);
      }
    }
  }

  lemma AttemptCounts(d: EventDelivery, env: Env, now: int)
    ensures Attempted(d, env, now).attempts == d.attempts + if env.known(d) then 1 else 0
  {
  }

  /**
    After any firings a delivery created pending is delivered exactly if its last answer was an acceptance,
    whose receipt it has; failed exactly if its records were missing or five sends were refused; and otherwise
    waits two, four, eight or sixteen seconds from its last refusal.
   */
  lemma RecordFollowsAnswers(st: Store, firings: seq<Firing>, limit: nat, id: string)
    requires Valid(st) && id in st.deliveries
    requires
      var d := st.deliveries[id];
      d.status.Pending? && d.attempts == 0 && d.lastAttemptAt.None? && d.receipt.None?
    ensures
      var last := AfterFirings(st, firings, limit);
      && id in last.deliveries
      && Tells(Answers(st, firings, limit, id, 0), last.deliveries[id], st.deliveries[id].nextAttemptAt)
  {
    TellsOn(st, firings, limit, id, [], st.deliveries[id].nextAttemptAt);
    var h := Answers(st, firings, limit, id, 0);
    assert [] + h == h;
  }

  lemma OnlyTheLastAccepted(h: seq<Answer>, d: EventDelivery, first: int, k: int)
    requires Tells(h, d, first) && AcceptedAt(h, k)
    ensures k == |h| - 1 && h[k].Sent? && h[k].outcome.Accepted? && d.status.Delivered? && d.receipt == h[k].outcome.receipt
  {
    assert k < |h| - 1 ==> !Refused(h[..|h| - 1][k]);
  }

  predicate AcceptedAt(h: seq<Answer>, k: int) {
    0 <= k < |h| && h[k].Sent? && h[k].outcome.Accepted?
  }

  ghost predicate SomeAccepted(h: seq<Answer>) {
    exists k :: AcceptedAt(h, k)
  }

  lemma DeliveredMeansAccepted(h: seq<Answer>, d: EventDelivery, first: int)
    requires Tells(h, d, first)
    ensures d.status.Delivered? <==> SomeAccepted(h)
  {
    if d.status.Delivered? {
      assert AcceptedAt(h, |h| - 1);
    }
    if SomeAccepted(h) {
      var k :| AcceptedAt(h, k);
      OnlyTheLastAccepted(h, d, first, k);
    }
  }

  /** So a delivery is delivered exactly if some send of it was accepted. */
  lemma DeliveredIffAccepted(st: Store, firings: seq<Firing>, limit: nat, id: string)
    requires Valid(st) && id in st.deliveries
    requires
      var d := st.deliveries[id];
      d.status.Pending? && d.attempts == 0 && d.lastAttemptAt.None? && d.receipt.None?
    ensures id in AfterFirings(st, firings, limit).deliveries
    ensures
      var h := Answers(st, firings, limit, id, 0);
      var d := AfterFirings(st, firings, limit).deliveries[id];
      && (d.status.Delivered? <==> SomeAccepted(h))
      && (forall k :: AcceptedAt(h, k) ==> d.receipt == h[k].outcome.receipt)
  {
    hide Answers, AfterFirings, Valid, Tells, SomeAccepted;
    RecordFollowsAnswers(st, firings, limit, id);
    var h, d := Answers(st, firings, limit, id, 0), AfterFirings(st, firings, limit).deliveries[id];
    var first := st.deliveries[id].nextAttemptAt;
    forall k | AcceptedAt(h, k)
      ensures 0 <= k < |h| && h[k].Sent? && h[k].outcome.Accepted? && d.status.Delivered? && d.receipt == h[k].outcome.receipt
    {
      OnlyTheLastAccepted(h, d, first, k);
    }
    DeliveredMeansAccepted(h, d, first);
  }
}
