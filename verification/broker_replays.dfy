/**
  Proofs of possession among overlapping consumes and completions (packages/broker/src/broker.ts:223-306
  over packages/broker/src/crypto.ts:304-357).
 */
module BrokerReplays {
  import opened Wrappers
  import opened BrokerTypes
  import opened BrokerRules
  import opened BrokerInterleaving
  import opened BrokerSchedules
  import Dpop

  // --- replays among overlapping requests ---

  /** What a step does to the replay map. */
  function TouchOf(s: State, a: Action): seq<Dpop.Call>
    requires Enabled(s, a)
  {
    match a
    case Prove(t) =>
      [Dpop.Verifying(s.threads[t].proof, s.grants[s.threads[t].id].dpopThumbprint, s.threads[t].startedAt)]
    case Confirm(t) => [Dpop.Verifying(s.threads[t].proof, s.threads[t].thumbprint, s.threads[t].startedAt)]
    case Sweep => [Dpop.Sweeping(s.clock)]
    case _ => []
  }

  function Touches(acts: seq<Action>): seq<Dpop.Call>
    requires Legal(acts)
  {
    if acts == [] then []
    else Touches(acts[..|acts| - 1]) + TouchOf(After(acts[..|acts| - 1]), acts[|acts| - 1])
  }

  function TouchTimes(acts: seq<Action>): seq<int>
    requires Legal(acts)
  {
    if acts == [] then []
    else
      var s := After(acts[..|acts| - 1]);
      TouchTimes(acts[..|acts| - 1]) + if TouchOf(s, acts[|acts| - 1]) == [] then [] else [s.clock]
  }

  lemma TouchIs(s: State, a: Action)
    requires Inv(s) && Enabled(s, a)
    ensures |TouchOf(s, a)| <= 1 && s.clock <= Apply(s, a).clock
    ensures TouchOf(s, a) == [] ==> Apply(s, a).seen == s.seen
    ensures TouchOf(s, a) != [] ==> TouchOf(s, a)[0].now <= s.clock && Apply(s, a).seen == Dpop.Step(s.seen, TouchOf(s, a)[0])
  {
    hide Inv, Dpop.SeenAfter, Dpop.Verdict, Dpop.Prune;
    ClockGrows(s, a);
    if a.Prove? {
      ReadingIsPast(s, a.t);
    } else if a.Confirm? {
      ReadingIsPast(s, a.t);
    } else {
      SeenOfOthers(s, a);
    }
  }

  lemma SeenOfOthers(s: State, a: Action)
    requires Enabled(s, a) && !a.Prove? && !a.Confirm?
    ensures |TouchOf(s, a)| <= 1
    ensures TouchOf(s, a) == [] ==> Apply(s, a).seen == s.seen
    ensures TouchOf(s, a) != [] ==> TouchOf(s, a)[0].now <= s.clock && Apply(s, a).seen == Dpop.Step(s.seen, TouchOf(s, a)[0])
  {
    hide Apply, Enabled;
    SeenStays(s, a);
  }

  lemma ClockGrows(s: State, a: Action)
    requires Inv(s) && Enabled(s, a)
    ensures s.clock <= Apply(s, a).clock
  {
    hide Inv, Enabled, Apply;
    StepKeepsInv(s, a);
  }

  lemma ReadingIsPast(s: State, t: nat)
    requires Inv(s) && ThreadAt(s, t) && (s.threads[t].Proving? || s.threads[t].Confirming?)
    ensures s.threads[t].startedAt <= s.clock
  {
    assert ThreadOk(s, s.threads[t]);
  }

  lemma SeenStays(s: State, a: Action)
    requires Enabled(s, a) && !a.Prove? && !a.Confirm?
    ensures Apply(s, a).seen == if a.Sweep? then Dpop.Prune(s.seen, s.clock) else s.seen
  {
    hide Enabled, Apply;
    if a.Consume? || a.Exchange? || a.Complete? || a.Approve? {
      SeenOfStarts(s, a);
    } else {
      SeenOfMoves(s, a);
    }
  }

  lemma SeenOfMoves(s: State, a: Action)
    requires Enabled(s, a) && !a.Prove? && !a.Confirm? && !a.Consume? && !a.Exchange? && !a.Complete? && !a.Approve?
    ensures Apply(s, a).seen == if a.Sweep? then Dpop.Prune(s.seen, s.clock) else s.seen
  {
    hide Mint, ApprovedBy, ConsumedAt, CreateGrant, ReserveToken, Close, Dpop.Prune;
    match a
    case Create(t) => CreateKeepsSeen(s, t);
    case Reserve(t) => ReserveKeepsSeen(s, t);
    case Finish(t, evidenceId) => CloseKeepsSeen(End(s, t, None), s.threads[t].id, Agent, Revoked, evidenceId);
    case Finalize(id, source, status, evidenceId) => CloseKeepsSeen(s, id, source, status, evidenceId);
    case _ =>
  }

  lemma CreateKeepsSeen(s: State, t: nat)
    requires Enabled(s, Create(t))
    ensures CreateGrant(s, t).seen == s.seen
  {
  }

  lemma ReserveKeepsSeen(s: State, t: nat)
    requires Enabled(s, Reserve(t))
    ensures ReserveToken(s, t).seen == s.seen
  {
  }

  lemma CloseKeepsSeen(s: State, id: string, source: Source, status: Status, evidenceId: string)
    ensures Close(s, id, source, status, evidenceId).seen == s.seen
  {
  }

  lemma SeenOfStarts(s: State, a: Action)
    requires Enabled(s, a) && (a.Consume? || a.Exchange? || a.Complete? || a.Approve?)
    ensures Apply(s, a).seen == s.seen
  {
    hide Enabled;
    if a.Exchange? {
      ExchangeKeepsGrants(s, a);
    } else if a.Consume? {
      ConsumeKeepsSeen(s, a);
    } else {
      hide ApproveCheck, CompletionFits;
    }
  }

  lemma ConsumeKeepsSeen(s: State, a: Action)
    requires Enabled(s, a) && a.Consume?
    ensures Apply(s, a).seen == s.seen
  {
    hide Enabled, ConsumeCheck, ConsumeClaims;
  }

  lemma EmptyOverlaps()
    ensures Dpop.Overlapping([], []) && Dpop.After([]) == map[]
  {
  }

  lemma OverlapGrows(calls: seq<Dpop.Call>, touched: seq<int>, call: Dpop.Call, at: int)
    requires Dpop.Overlapping(calls, touched) && call.now <= at
    requires forall k :: 0 <= k < |touched| ==> touched[k] <= at
    ensures Dpop.Overlapping(calls + [call], touched + [at])
  {
  }

  /** The replay map of a schedule is that of its touches, whose readings lie in the past. */
  lemma {:induction false} SeenIsHistory(acts: seq<Action>)
    requires Legal(acts)
    ensures After(acts).seen == Dpop.After(Touches(acts))
    ensures Dpop.Overlapping(Touches(acts), TouchTimes(acts))
    ensures forall k :: 0 <= k < |TouchTimes(acts)| ==> TouchTimes(acts)[k] <= After(acts).clock
  {
    hide Inv, Enabled, Apply, TouchOf, Dpop.Step, Dpop.Overlapping, Dpop.After;
    if acts == [] {
      EmptyOverlaps();
    } else {
      var before, a := acts[..|acts| - 1], acts[|acts| - 1];
      SeenIsHistory(before);
      Reachable(before);
      TouchIs(After(before), a);
      var touch := TouchOf(After(before), a);
      if touch == [] {
        assert Touches(acts) == Touches(before) && TouchTimes(acts) == TouchTimes(before);
      } else {
        assert touch == [touch[0]];
        assert Touches(acts) == Touches(before) + [touch[0]] && TouchTimes(acts) == TouchTimes(before) + [After(before).clock];
        OverlapGrows(Touches(before), TouchTimes(before), touch[0], After(before).clock);
        AfterOneMore(Touches(before), touch[0]);
      }
    }
  }

  lemma AfterOneMore(calls: seq<Dpop.Call>, call: Dpop.Call)
    ensures Dpop.After(calls + [call]) == Dpop.Step(Dpop.After(calls), call)
  {
    hide Dpop.Step;
    assert (calls + [call])[..|calls|] == calls;
  }

  lemma {:induction false} TouchesGrow(acts: seq<Action>, n: nat)
    requires Legal(acts) && n <= |acts| && Legal(acts[..n])
    ensures Touches(acts[..n]) <= Touches(acts) && TouchTimes(acts[..n]) <= TouchTimes(acts)
  {
    hide Enabled, Apply, TouchOf, After;
    if n == |acts| {
      assert acts[..n] == acts;
    } else {
      assert acts[..|acts| - 1][..n] == acts[..n];
      TouchesGrow(acts[..|acts| - 1], n);
    }
  }

  /** Step `n` of a schedule lets a proof with this `jti` pass. */
  ghost predicate Passes(acts: seq<Action>, n: nat, jti: string)
    requires Legal(acts) && n < |acts| && Legal(acts[..n]) && Enabled(After(acts[..n]), acts[n])
  {
    var s, a := After(acts[..n]), acts[n];
    (a.Prove? || a.Confirm?) && s.threads[a.t].proof.jti == jti
    && (Apply(s, a).threads[a.t].Proved? || Apply(s, a).threads[a.t].Confirmed?)
  }

  lemma PassIsVerdict(s: State, a: Action)
    requires Enabled(s, a) && (a.Prove? || a.Confirm?)
    requires Apply(s, a).threads[a.t].Proved? || Apply(s, a).threads[a.t].Confirmed?
    ensures |TouchOf(s, a)| == 1
    ensures
      var touch := TouchOf(s, a)[0];
      && touch.Verifying? && touch.proof == s.threads[a.t].proof && touch.now == s.threads[a.t].startedAt
      && Dpop.Verdict(s.seen, touch.proof, touch.thumbprint, touch.now).None?
  {
    hide Dpop.SeenAfter, Dpop.Verdict;
  }

  lemma PassesIsAccepted(acts: seq<Action>, n: nat, jti: string)
    requires Legal(acts) && n < |acts| && Legal(acts[..n]) && Enabled(After(acts[..n]), acts[n]) && Passes(acts, n, jti)
    ensures Legal(acts[..n + 1]) && |Touches(acts[..n + 1])| == |Touches(acts[..n])| + 1
    ensures |Touches(acts[..n])| < |Touches(acts)| == |TouchTimes(acts)|
    ensures
      var k := |Touches(acts[..n])|;
      && Dpop.Accepted(Touches(acts), k) && Touches(acts)[k].proof.jti == jti
      && Touches(acts)[k].now == After(acts[..n]).threads[acts[n].t].startedAt
      && TouchTimes(acts)[k] == After(acts[..n]).clock
  {
    hide Enabled, Apply, After, TouchOf, Dpop.Verdict, Dpop.After;
    PrefixIsLegal(acts, n + 1);
    PassIsVerdict(After(acts[..n]), acts[n]);
    SeenIsHistory(acts[..n]);
    SeenIsHistory(acts);
    TouchesOfNext(acts, n);
    TouchesGrow(acts, n + 1);
    var k := |Touches(acts[..n])|;
    assert Touches(acts)[..k] == Touches(acts[..n]);
    assert Touches(acts)[k] == Touches(acts[..n + 1])[k];
    assert TouchTimes(acts)[k] == TouchTimes(acts[..n + 1])[k];
  }

  lemma TouchesOfNext(acts: seq<Action>, n: nat)
    requires n < |acts| && Legal(acts[..n]) && Legal(acts[..n + 1]) && Enabled(After(acts[..n]), acts[n])
    ensures
      var touch := TouchOf(After(acts[..n]), acts[n]);
      && Touches(acts[..n + 1]) == Touches(acts[..n]) + touch
      && TouchTimes(acts[..n + 1]) == TouchTimes(acts[..n]) + if touch == [] then [] else [After(acts[..n]).clock]
  {
    hide Enabled, Apply, After, TouchOf;
    assert acts[..n + 1][..n] == acts[..n];
  }

  /**
    Whatever consumes and completions overlap, a `jti` passes again only when a lifetime is over since
    the clock was read for its earlier pass.
   */
  lemma ReplaysAreApart(acts: seq<Action>, m: nat, n: nat, jti: string)
    requires Legal(acts) && m < n < |acts| && Legal(acts[..m]) && Legal(acts[..n])
    requires Enabled(After(acts[..m]), acts[m]) && Enabled(After(acts[..n]), acts[n])
    requires Passes(acts, m, jti) && Passes(acts, n, jti)
    ensures After(acts[..n]).clock - After(acts[..m]).threads[acts[m].t].startedAt >= Dpop.LIFETIME
  {
    hide Enabled, Apply, After, Passes, Touches, TouchTimes;
    PassesIsAccepted(acts, m, jti);
    PassesIsAccepted(acts, n, jti);
    assert acts[..n][..m + 1] == acts[..m + 1];
    TouchesGrow(acts[..n], m + 1);
    SeenIsHistory(acts);
    Dpop.OverlappingApart(Touches(acts), TouchTimes(acts), |Touches(acts[..m])|, |Touches(acts[..n])|);
  }

  // --- how often overlapping requests let one proof pass ---

  /** Some schedule whose proofs are judged by readings that old at most lets some proof pass `n` times. */
  ghost predicate PassesTimes(n: nat, delay: int) {
    exists acts, proof, positions :: |positions| == n && LetsPass(acts, proof, positions, delay)
  }

  ghost predicate LetsPass(acts: seq<Action>, proof: Dpop.Proof, positions: seq<nat>, delay: int) {
    && Legal(acts) && Dpop.StalledAtMost(Touches(acts), TouchTimes(acts), delay)
    && Dpop.AcceptedAt(Touches(acts), proof, positions)
  }

  const SCOPE: seq<string> := ["read"]

  /** A grant of the policy for so many seconds. */
  function Granted(seconds: int): Grant {
    Grant("grant", Approved, "agent", "subject", "token", "GET /", "https://r.example/", "https://r.example", SCOPE, SCOPE,
          Dpop.SAMPLE.thumbprint, Allow, Some("policy"), None, Some(0), seconds * 1000, None, None, None, None)
  }

  function Proposing0(): Proposal {
    Proposal("agent", "subject", "token", "https://r.example/", "https://r.example", "GET /", true, SCOPE,
             Dpop.SAMPLE.thumbprint, None, None)
  }

  function Authority0(): Authority {
    Authority(SCOPE, SCOPE, ["https://r.example/"])
  }

  const POST := RequestProof("POST", None, Dpop.SAMPLE)

  /** The completions k to m - 1 wait for their proofs, judged by readings `gap` apart. */
  ghost predicate UnderWay(threads: seq<Thread>, gap: nat, m: nat, k: nat)
    requires |threads| == 1 + m
  {
    forall j :: k <= j < m ==> threads[1 + j] == Confirming("grant", Dpop.SAMPLE.thumbprint, Dpop.SAMPLE, j * gap)
  }

  lemma OneMoreUnderWay(threads: seq<Thread>, gap: nat, m: nat, k: nat)
    requires |threads| == 1 + m && UnderWay(threads, gap, m, k)
    ensures UnderWay(threads + [Confirming("grant", Dpop.SAMPLE.thumbprint, Dpop.SAMPLE, m * gap)], gap, m + 1, k)
  {
  }

  lemma OneLessUnderWay(threads: seq<Thread>, threads': seq<Thread>, gap: nat, m: nat, k: nat)
    requires |threads'| == |threads| == 1 + m && k < m && UnderWay(threads, gap, m, k)
    requires forall u :: 0 <= u < |threads| && u != 1 + k ==> threads'[u] == threads[u]
    ensures UnderWay(threads', gap, m, k + 1)
  {
  }

  lemma FirstUnderWay(threads: seq<Thread>, gap: nat, m: nat, k: nat)
    requires |threads| == 1 + m && k < m && UnderWay(threads, gap, m, k)
    ensures threads[1 + k] == Confirming("grant", Dpop.SAMPLE.thumbprint, Dpop.SAMPLE, k * gap)
  {
  }

  /**
    `m` completions under the minted credential have been started, `gap` apart, and the first `k` of them
    have reached the replay map, each after a sweep.
   */
  ghost predicate Racing(acts: seq<Action>, seconds: int, gap: nat, m: nat, k: nat) {
    && Legal(acts) && k <= m
    && var s := After(acts);
       && s.grants == map["grant" := Granted(seconds)] && |s.threads| == 1 + m
       && s.log == [Credential("grant", Mint(Granted(seconds)), "token")]
       && UnderWay(s.threads, gap, m, k)
       && Touches(acts) == Dpop.Stalled(Dpop.SAMPLE, gap, k) && TouchTimes(acts) == Dpop.StalledTouches(gap, k)
  }

  lemma OneMoreStep(acts: seq<Action>, a: Action)
    requires Legal(acts) && Enabled(After(acts), a)
    ensures Legal(acts + [a]) && After(acts + [a]) == Apply(After(acts), a)
    ensures Touches(acts + [a]) == Touches(acts) + TouchOf(After(acts), a)
    ensures TouchTimes(acts + [a]) == TouchTimes(acts) + if TouchOf(After(acts), a) == [] then [] else [After(acts).clock]
  {
    hide Enabled, Apply, TouchOf;
    assert (acts + [a])[..|acts|] == acts;
  }

  lemma PolicyGrants(seconds: int)
    requires seconds > 0
    ensures Propose(Proposing0(), Some(Authority0()), Allow, seconds, "grant", "", 0) == Ok(Granted(seconds))
  {
    AllowedScopeWithin(SCOPE, Authority0());
    assert SCOPE[0] in SCOPE && SCOPE[0] != "" && Authority0().resources[0] == "https://r.example/";
  }

  /** The policy allows the grant and the request goes on to create it. */
  lemma Allowed(seconds: int) returns (acts: seq<Action>)
    requires seconds > 0
    ensures Legal(acts) && Touches(acts) == [] && TouchTimes(acts) == []
    ensures After(acts) == Initial.(issued := {"grant"}, threads := [Creating(Granted(seconds), None)])
  {
    hide Propose;
    var exchange := Exchange(Proposing0(), Some(Authority0()), Allow, seconds, "grant", "");
    PolicyGrants(seconds);
    assert Legal([]) && After([]) == Initial && Enabled(Initial, exchange);
    OneMoreStep([], exchange);
    acts := [] + [exchange];
    assert After(acts) == StartExchange(Initial, Ok(Granted(seconds)), Proposing0(), "grant");
  }

  /** The policy allows a grant and its credential is signed, all at time zero. */
  lemma Granting(seconds: int, gap: nat) returns (acts: seq<Action>)
    requires seconds > 0
    ensures Racing(acts, seconds, gap, 0, 0) && After(acts).clock == 0
  {
    hide Apply, Enabled, TouchOf, Granted, Mint;
    acts := Allowed(seconds);
    CreateAndSign(After(acts), seconds);
    OneMoreStep(acts, Create(0));
    acts := acts + [Create(0)];
    OneMoreStep(acts, Sign(0, true));
    acts := acts + [Sign(0, true)];
  }

  lemma CreateAndSign(s: State, seconds: int)
    requires s == Initial.(issued := {"grant"}, threads := [Creating(Granted(seconds), None)])
    ensures Enabled(s, Create(0)) && TouchOf(s, Create(0)) == []
    ensures Enabled(Apply(s, Create(0)), Sign(0, true)) && TouchOf(Apply(s, Create(0)), Sign(0, true)) == []
    ensures
      var s' := Apply(Apply(s, Create(0)), Sign(0, true));
      && s'.grants == map["grant" := Granted(seconds)] && |s'.threads| == 1 && s'.clock == 0
      && s'.log == [Credential("grant", Mint(Granted(seconds)), "token")]
  {
    hide Mint;
  }

  lemma Waits(acts: seq<Action>, seconds: int, gap: nat, m: nat, k: nat, until: int) returns (next: seq<Action>)
    requires Racing(acts, seconds, gap, m, k) && After(acts).clock <= until
    ensures Racing(next, seconds, gap, m, k) && After(next).clock == until
  {
    var tick := Tick(until - After(acts).clock);
    OneMoreStep(acts, tick);
    next := acts + [tick];
  }

  lemma CredentialFits(s: State, seconds: int, now: int)
    requires s.grants == map["grant" := Granted(seconds)] && 0 <= now < seconds
    ensures CompletionFits(s, "grant", Signed(Mint(Granted(seconds))), POST, now)
  {
  }

  lemma CompleteChanges(s: State, seconds: int)
    requires s.grants == map["grant" := Granted(seconds)] && 0 <= s.clock < seconds
    requires s.log == [Credential("grant", Mint(Granted(seconds)), "token")]
    ensures
      var complete := Complete("grant", Signed(Mint(Granted(seconds))), POST, s.clock);
      && Enabled(s, complete) && TouchOf(s, complete) == []
      && Apply(s, complete) == s.(threads := s.threads + [Confirming("grant", Dpop.SAMPLE.thumbprint, Dpop.SAMPLE, s.clock)])
  {
    hide CompletionFits;
    assert s.log[0].claims == Mint(Granted(seconds));
    CredentialFits(s, seconds, s.clock);
  }

  lemma Starts(acts: seq<Action>, seconds: int, gap: nat, m: nat, k: nat) returns (next: seq<Action>)
    requires Racing(acts, seconds, gap, m, k) && After(acts).clock == m * gap && m * gap < seconds
    ensures Racing(next, seconds, gap, m + 1, k) && After(next).clock == m * gap
  {
    hide Apply, Enabled, TouchOf, Granted, UnderWay;
    OneMoreUnderWay(After(acts).threads, gap, m, k);
    var complete := Complete("grant", Signed(Mint(Granted(seconds))), POST, After(acts).clock);
    CompleteChanges(After(acts), seconds);
    OneMoreStep(acts, complete);
    next := acts + [complete];
  }

  lemma SweepChanges(s: State)
    ensures Enabled(s, Sweep) && TouchOf(s, Sweep) == [Dpop.Sweeping(s.clock)]
    ensures
      var s' := Apply(s, Sweep);
      s'.grants == s.grants && s'.log == s.log && s'.clock == s.clock && s'.threads == s.threads
  {
    hide Dpop.Prune;
  }

  lemma ConfirmChanges(s: State, t: nat, id: string, thumbprint: string, proof: Dpop.Proof, startedAt: int)
    requires ThreadAt(s, t) && s.threads[t] == Confirming(id, thumbprint, proof, startedAt)
    ensures Enabled(s, Confirm(t)) && TouchOf(s, Confirm(t)) == [Dpop.Verifying(proof, thumbprint, startedAt)]
    ensures
      var s' := Apply(s, Confirm(t));
      && s'.grants == s.grants && s'.log == s.log && s'.clock == s.clock && |s'.threads| == |s.threads|
      && forall u :: 0 <= u < |s.threads| && u != t ==> s'.threads[u] == s.threads[u]
  {
    hide Dpop.SeenAfter, Dpop.Verdict;
  }

  lemma ArrivesAtMap(acts: seq<Action>, seconds: int, gap: nat, m: nat, k: nat) returns (next: seq<Action>)
    requires Racing(acts, seconds, gap, m, k) && k < m && After(acts).clock == Dpop.Reach(gap, k)
    ensures Racing(next, seconds, gap, m, k + 1) && After(next).clock == Dpop.Reach(gap, k)
  {
    hide Dpop.Reach, Apply, Enabled, TouchOf, UnderWay;
    var s := After(acts);
    FirstUnderWay(s.threads, gap, m, k);
    SweepChanges(s);
    OneMoreStep(acts, Sweep);
    var swept := acts + [Sweep];
    var confirm := Confirm(1 + k);
    ConfirmChanges(After(swept), 1 + k, "grant", Dpop.SAMPLE.thumbprint, Dpop.SAMPLE, k * gap);
    OneMoreStep(swept, confirm);
    next := swept + [confirm];
    OneLessUnderWay(s.threads, After(next).threads, gap, m, k);
    assert Dpop.Stalled(Dpop.SAMPLE, gap, k + 1) == Dpop.Stalled(Dpop.SAMPLE, gap, k)
      + [Dpop.Sweeping(Dpop.Reach(gap, k))] + [Dpop.Verifying(Dpop.SAMPLE, Dpop.SAMPLE.thumbprint, k * gap)];
    assert Dpop.StalledTouches(gap, k + 1) == Dpop.StalledTouches(gap, k) + [Dpop.Reach(gap, k)] + [Dpop.Reach(gap, k)];
  }

  /** The first one arrives at once, and as many are started as there is time for before the second may arrive. */
  lemma {:induction false} StartsMany(seconds: int, gap: nat, m: nat) returns (acts: seq<Action>)
    requires m > 0 && (m - 1) * gap < seconds
    ensures Racing(acts, seconds, gap, m, 1) && After(acts).clock == (m - 1) * gap
  {
    hide Racing;
    if m == 1 {
      acts := Granting(seconds, gap);
      acts := Starts(acts, seconds, gap, 0, 0);
      acts := ArrivesAtMap(acts, seconds, gap, 1, 0);
    } else {
      Dpop.GapIsOneMore(m - 1, gap);
      acts := StartsMany(seconds, gap, m - 1);
      IsLegal(acts, seconds, gap, m - 1, 1);
      acts := Waits(acts, seconds, gap, m - 1, 1, (m - 1) * gap);
      acts := Starts(acts, seconds, gap, m - 1, 1);
    }
  }

  lemma IsLegal(acts: seq<Action>, seconds: int, gap: nat, m: nat, k: nat)
    requires Racing(acts, seconds, gap, m, k)
    ensures Legal(acts)
  {
  }

  /** With `ahead` more started than have arrived, one more arrives and, unless all are started, one more starts. */
  lemma {:induction false} Arrive(seconds: int, gap: nat, ahead: nat, k: nat) returns (acts: seq<Action>)
    requires 0 < gap <= Dpop.LIFETIME && ahead * gap <= Dpop.LIFETIME < (ahead + 1) * gap && k > 0 && (ahead + k) * gap < seconds
    ensures Racing(acts, seconds, gap, ahead + k, k) && After(acts).clock == (ahead + k - 1) * gap
  {
    hide Racing, Legal;
    if k == 1 {
      acts := StartsMany(seconds, gap, ahead + 1);
    } else {
      Dpop.GapIsOneMore(ahead + k, gap);
      Spread(gap, ahead, k);
      acts := Arrive(seconds, gap, ahead, k - 1);
      IsLegal(acts, seconds, gap, ahead + k - 1, k - 1);
      acts := Waits(acts, seconds, gap, ahead + k - 1, k - 1, Dpop.Reach(gap, k - 1));
      acts := ArrivesAtMap(acts, seconds, gap, ahead + k - 1, k - 1);
      IsLegal(acts, seconds, gap, ahead + k - 1, k);
      acts := Waits(acts, seconds, gap, ahead + k - 1, k, (ahead + k - 1) * gap);
      acts := Starts(acts, seconds, gap, ahead + k - 1, k);
    }
  }

  lemma Spread(gap: nat, ahead: nat, k: nat)
    requires ahead * gap <= Dpop.LIFETIME < (ahead + 1) * gap && k > 1
    ensures (ahead + k - 2) * gap <= Dpop.Reach(gap, k - 1) <= (ahead + k - 1) * gap
  {
    assert (ahead + k - 2) * gap == ahead * gap + (k - 2) * gap;
    assert (ahead + k - 1) * gap == (ahead + 1) * gap + (k - 2) * gap;
  }

  /** Without a gap all are started at once and arrive one after the other, a lifetime later. */
  lemma {:induction false} ArriveLate(seconds: int, n: nat, k: nat) returns (acts: seq<Action>)
    requires 0 < k <= n && seconds > 0
    ensures Racing(acts, seconds, 0, n, k) && After(acts).clock <= Dpop.LIFETIME
  {
    hide Racing, Legal;
    if k == 1 {
      acts := StartsMany(seconds, 0, n);
    } else {
      acts := ArriveLate(seconds, n, k - 1);
      IsLegal(acts, seconds, 0, n, k - 1);
      acts := Waits(acts, seconds, 0, n, k - 1, Dpop.Reach(0, k - 1));
      acts := ArrivesAtMap(acts, seconds, 0, n, k - 1);
    }
  }

  /** The run of stalled calls is what the replay map sees of some schedule of completions. */
  lemma StalledIsScheduled(gap: nat, n: nat) returns (acts: seq<Action>)
    requires n > 0 && gap <= Dpop.LIFETIME
    ensures Legal(acts) && Touches(acts) == Dpop.Stalled(Dpop.SAMPLE, gap, n)
    ensures TouchTimes(acts) == Dpop.StalledTouches(gap, n)
  {
    if gap == 0 {
      acts := ArriveLate(1, n, n);
    } else {
      var ahead := Dpop.LIFETIME / gap;
      assert Dpop.LIFETIME == ahead * gap + Dpop.LIFETIME % gap;
      acts := Arrive((ahead + n) * gap + 1, gap, ahead, n);
    }
  }

  /**
    The exact number of times a proof passes in the broker: `n` passes are possible when the reading of each
    is `delay` old at most exactly if that leaves room for them.
   */
  lemma PassesTimesIff(n: nat, delay: int)
    ensures PassesTimes(n, delay) <==> Dpop.RoomFor(n, delay)
  {
    hide Dpop.RoomFor, Dpop.StalledAtMost, Dpop.AcceptedAt, Legal, After;
    if PassesTimes(n, delay) {
      var acts, proof, positions :| |positions| == n && LetsPass(acts, proof, positions, delay);
      Dpop.AcceptedTimesNeedRoom(Touches(acts), TouchTimes(acts), delay, proof, positions);
    }
    if Dpop.RoomFor(n, delay) {
      if n == 0 {
        NothingPasses(delay);
      } else {
        Dpop.StalledUsesRoom(n, delay);
        var acts := StalledIsScheduled(Dpop.GapFor(delay), n);
        assert LetsPass(acts, Dpop.SAMPLE, Dpop.Odd(n), delay);
      }
    }
  }

  lemma NothingPasses(delay: int)
    ensures PassesTimes(0, delay)
  {
    assert Legal([]) && Touches([]) == [] && TouchTimes([]) == [];
    assert LetsPass([], Dpop.SAMPLE, [], delay);
  }

  /** A fourth pass takes a reading at least 100 s old. */
  lemma FourthPassIff(delay: int)
    ensures PassesTimes(4, delay) <==> delay >= 100_000
  {
    PassesTimesIff(4, delay);
  }
}
