/**
  What holds of every schedule of overlapping broker requests (docs/spec/completion-scoped-grants.md,
  section 3, over packages/broker/src/broker.ts:129-416).
 */
module BrokerSchedules {
  import opened Wrappers
  import opened BrokerTypes
  import opened BrokerRules
  import opened BrokerInterleaving
  import Dpop

  lemma {:induction false} PrefixIsLegal(acts: seq<Action>, n: nat)
    requires Legal(acts) && n <= |acts|
    ensures Legal(acts[..n])
    ensures n > 0 ==> Legal(acts[..n - 1]) && Enabled(After(acts[..n - 1]), acts[n - 1]) && After(acts[..n]) == Apply(After(acts[..n - 1]), acts[n - 1])
  {
    hide Enabled, Apply;
    if n == |acts| {
      assert acts[..n] == acts;
    } else {
      PrefixIsLegal(acts[..|acts| - 1], n);
      assert acts[..|acts| - 1][..n] == acts[..n];
      if n > 0 {
        assert acts[..|acts| - 1][..n - 1] == acts[..n - 1];
      }
    }
  }

  // --- consumption, credentials, ownership ---

  /** A grant is consumed successfully at most once. */
  lemma ConsumedAtMostOnce(acts: seq<Action>, j: nat, k: nat)
    requires Legal(acts) && j < k < |After(acts).log|
    requires After(acts).log[j].Consumption? && After(acts).log[k].Consumption?
    ensures After(acts).log[j].id != After(acts).log[k].id
  {
    Reachable(acts);
  }

  /**
    At most one credential is ever signed for a grant and for a subject token, by the allow path, the
    approval path and idempotent retries together, and it says what the grant says.
   */
  lemma OneCredentialPerSubjectToken(acts: seq<Action>, j: nat, k: nat)
    requires Legal(acts) && j < k < |After(acts).log|
    requires After(acts).log[j].Credential? && After(acts).log[k].Credential?
    ensures After(acts).log[j].id != After(acts).log[k].id
    ensures After(acts).log[j].token != After(acts).log[k].token
    ensures After(acts).log[j].id in After(acts).grants
    ensures After(acts).log[j].claims == Mint(After(acts).grants[After(acts).log[j].id])
  {
    Reachable(acts);
    var s := After(acts);
    assert EntryOk(s, s.log[j]) && EntryOk(s, s.log[k]);
  }

  /** From any moment on owners stay, and so does the ownership of a grant approved or consumed at that moment. */
  lemma OwnershipIsWriteOnce(acts: seq<Action>, n: nat, token: string, id: string)
    requires Legal(acts) && n <= |acts| && Legal(acts[..n])
    ensures token in After(acts[..n]).owner ==>
              token in After(acts).owner && After(acts).owner[token] == After(acts[..n]).owner[token]
    ensures StatusIs(After(acts[..n]), id, Approved) || StatusIs(After(acts[..n]), id, Consumed) ==>
              Owns(After(acts[..n]), id) && Owns(After(acts), id)
  {
    hide Inv, Owns;
    Reachable(acts[..n]);
    if StatusIs(After(acts[..n]), id, Approved) || StatusIs(After(acts[..n]), id, Consumed) {
      InvOwns(After(acts[..n]), id);
    }
    OwnersStay(acts, n, token, id);
  }

  lemma InvOwns(s: State, id: string)
    requires Inv(s) && (StatusIs(s, id, Approved) || StatusIs(s, id, Consumed))
    ensures Owns(s, id)
  {
    assert GrantOk(s, id);
  }

  lemma {:induction false} OwnersStay(acts: seq<Action>, n: nat, token: string, id: string)
    requires Legal(acts) && n <= |acts| && Legal(acts[..n])
    ensures token in After(acts[..n]).owner ==>
              token in After(acts).owner && After(acts).owner[token] == After(acts[..n]).owner[token]
    ensures Owns(After(acts[..n]), id) ==> Owns(After(acts), id)
  {
    hide Inv, Enabled, Apply;
    if n == |acts| {
      assert acts[..n] == acts;
    } else {
      var before := acts[..|acts| - 1];
      assert before[..n] == acts[..n];
      OwnersStay(before, n, token, id);
      Reachable(before);
      StepKeepsInv(After(before), acts[|acts| - 1]);
    }
  }

  /** A consume goes from approved to consumed, was unexpired when its section began, and precedes any evidence. */
  lemma ConsumedFromApproved(acts: seq<Action>, t: nat)
    requires Legal(acts) && Enabled(After(acts), Use(t))
    ensures
      var s, s' := After(acts), Apply(After(acts), Use(t));
      var id := s.threads[t].id;
      && s.grants[id].status.Approved? && s'.grants[id].status.Consumed?
      && s.threads[t].startedAt < s.grants[id].expiresAt
      && id !in s.evidence
      && id in s.holder && s.holder[id] == t
  {
    Reachable(acts);
    var s := After(acts);
    assert ThreadOk(s, s.threads[t]) && GrantOk(s, s.threads[t].id);
  }

  /** Once there is evidence it never changes, the grant is final, and nothing consumes the grant any more. */
  lemma EvidenceIsFinal(acts: seq<Action>, a: Action, id: string)
    requires Legal(acts) && Enabled(After(acts), a) && id in After(acts).evidence
    ensures
      var s, s' := After(acts), Apply(After(acts), a);
      && id in s.grants && Final(s.grants[id].status)
      && s.grants[id].evidenceId == Some(s.evidence[id].id)
      && id in s'.evidence && s'.evidence[id] == s.evidence[id]
      && id in s'.grants && s'.grants[id].status == s.grants[id].status
      && (a.Use? ==> s.threads[a.t].id != id)
  {
    hide Inv, Enabled, Apply;
    Reachable(acts);
    StepKeepsInv(After(acts), a);
    EvidenceMeansFinal(After(acts), id);
    if a.Use? {
      ProvedIsApproved(After(acts), a.t);
    }
  }

  lemma EvidenceMeansFinal(s: State, id: string)
    requires Inv(s) && id in s.evidence
    ensures id in s.grants && Final(s.grants[id].status) && s.grants[id].evidenceId == Some(s.evidence[id].id)
  {
    assert GrantOk(s, id);
  }

  lemma ProvedIsApproved(s: State, t: nat)
    requires Inv(s) && Enabled(s, Use(t))
    ensures ThreadAt(s, t) && s.threads[t].Proved? && StatusIs(s, s.threads[t].id, Approved)
  {
    assert ThreadOk(s, s.threads[t]);
  }

  // --- idempotency ---

  /** A key that names a stored grant names it for ever. */
  ghost predicate KeysStay(s: State, s': State) {
    forall key :: key in s.idempotency && s.idempotency[key] in s.grants ==>
      key in s'.idempotency && s'.idempotency[key] == s.idempotency[key]
  }

  lemma CreateKeepsKeys(s: State, t: nat)
    requires Enabled(s, Create(t))
    ensures KeysStay(s, CreateGrant(s, t))
  {
  }

  lemma StepKeepsKeys(s: State, a: Action)
    requires Inv(s) && Enabled(s, a)
    ensures KeysStay(s, Apply(s, a))
  {
    hide Inv, KeysStay;
    if a.Create? {
      CreateKeepsKeys(s, a.t);
    } else {
      OthersKeepKeys(s, a);
      SameKeysStay(s, Apply(s, a));
    }
  }

  lemma SameKeysStay(s: State, s': State)
    requires s'.idempotency == s.idempotency
    ensures KeysStay(s, s')
  {
  }

  lemma OthersKeepKeys(s: State, a: Action)
    requires Enabled(s, a) && !a.Create?
    ensures Apply(s, a).idempotency == s.idempotency
  {
    hide Enabled;
    if a.Exchange? {
      ExchangeKeepsGrants(s, a);
    } else if a.Consume? {
      ConsumeKeepsGrants(s, a);
    } else if a.Reserve? {
      ReserveKeepsGrants(s, a.t);
    } else if a.Prove? {
      ProveKeepsGrants(s, a.t);
    } else {
      hide ApproveCheck, CompletionFits, Dpop.SeenAfter, Dpop.Verdict, Dpop.Prune, Mint;
    }
  }

  /** From any moment on a key that names a grant keeps naming it, whatever requests overlap. */
  lemma {:induction false} KeysStayLater(acts: seq<Action>, n: nat, key: string)
    requires Legal(acts) && n <= |acts| && Legal(acts[..n])
    requires key in After(acts[..n]).idempotency && After(acts[..n]).idempotency[key] in After(acts[..n]).grants
    ensures key in After(acts).idempotency && After(acts).idempotency[key] == After(acts[..n]).idempotency[key]
    ensures After(acts).idempotency[key] in After(acts).grants
  {
    hide Inv, Enabled, Apply;
    if n == |acts| {
      assert acts[..n] == acts;
    } else {
      var before := acts[..|acts| - 1];
      assert before[..n] == acts[..n];
      KeysStayLater(before, n, key);
      Reachable(before);
      StepKeepsKeys(After(before), acts[|acts| - 1]);
      StepKeepsInv(After(before), acts[|acts| - 1]);
    }
  }

  /** A request whose key names a grant already creates nothing and signs nothing. */
  lemma KnownKeyCreatesNothing(acts: seq<Action>, n: nat, t: nat)
    requires Legal(acts) && n <= |acts| && Legal(acts[..n]) && Enabled(After(acts), Create(t))
    requires
      var key := After(acts).threads[t].key;
      && key.Some? && key.value in After(acts[..n]).idempotency
      && After(acts[..n]).idempotency[key.value] in After(acts[..n]).grants
    ensures Apply(After(acts), Create(t)) == End(After(acts), t, None)
  {
    hide After, Legal;
    KeysStayLater(acts, n, After(acts).threads[t].key.value);
  }

  // --- the state machine ---

  function StatusOf(s: State, id: string): Option<Status> {
    if id in s.grants then Some(s.grants[id].status) else None
  }

  predicate Overdue(s: State, id: string) {
    id in s.grants && DeadlineOver(s.grants[id], s.clock)
  }

  /** What makes a step change a status, and on whose behalf. */
  function TriggerOf(s: State, a: Action): Option<Trigger>
    requires Enabled(s, a)
  {
    match a
    case Create(t) => Some(Proposing(s.threads[t].grant.policyDecision))
    case Commit(_) => Some(Approving)
    case Use(_) => Some(Using)
    case Finish(t, _) => Some(Closing(Agent, Revoked, Overdue(s, s.threads[t].id)))
    case Finalize(id, source, status, _) => Some(Closing(source, status, Overdue(s, id)))
    case _ => None
  }

  /**
    What a step from `before` to `after` on a trigger amounts to: an edge, and the row of the table
    for that trigger exactly if the broker had been asked to close the grant by one who may.
   */
  ghost predicate ChangeFits(before: Option<Status>, trigger: Option<Trigger>, after: Option<Status>) {
    && after.Some? && trigger.Some? && LegalEdge(before, after.value)
    && (trigger.value.Closing? ==> before.Some?)
    && (FollowsRow(before, trigger.value, after.value) <==>
        (trigger.value.Closing? ==>
           MayClose(before.value, trigger.value.source, trigger.value.status, trigger.value.due)))
  }

  /** Every change of a status, whatever else is in flight, is a row of the table with the right actor, or a closing by one who may not. */
  lemma StatusFollowsTable(acts: seq<Action>, a: Action, id: string)
    requires Legal(acts) && Enabled(After(acts), a)
    requires StatusOf(Apply(After(acts), a), id) != StatusOf(After(acts), id)
    ensures ChangeFits(StatusOf(After(acts), id), TriggerOf(After(acts), a), StatusOf(Apply(After(acts), a), id))
  {
    hide Inv, Enabled, Apply, ChangeFits, StatusOf;
    Reachable(acts);
    ChangesFit(After(acts), a, id);
  }

  lemma ChangesFit(s: State, a: Action, id: string)
    requires Inv(s) && Enabled(s, a) && StatusOf(Apply(s, a), id) != StatusOf(s, id)
    ensures ChangeFits(StatusOf(s, id), TriggerOf(s, a), StatusOf(Apply(s, a), id))
  {
    hide Inv, Enabled, ChangeFits;
    if a.Create? {
      CreateFits(s, a.t, id);
    } else if a.Commit? {
      CommitFits(s, a.t, id);
    } else if a.Use? {
      UseFits(s, a.t, id);
    } else if a.Finish? {
      FinishFits(s, a.t, a.evidenceId, id);
    } else if a.Finalize? {
      FinalizeFits(s, a, id);
    } else if a.Reserve? {
      ReserveKeepsGrants(s, a.t);
    } else if a.Prove? {
      ProveKeepsGrants(s, a.t);
    } else {
      OthersKeepGrants(s, a);
    }
  }

  lemma CreateFits(s: State, t: nat, id: string)
    requires Inv(s) && Enabled(s, Create(t)) && StatusOf(CreateGrant(s, t), id) != StatusOf(s, id)
    ensures ChangeFits(StatusOf(s, id), Some(Proposing(s.threads[t].grant.policyDecision)), StatusOf(CreateGrant(s, t), id))
  {
    assert ThreadOk(s, s.threads[t]);
  }

  lemma CommitFits(s: State, t: nat, id: string)
    requires Inv(s) && Enabled(s, Commit(t)) && StatusOf(Apply(s, Commit(t)), id) != StatusOf(s, id)
    ensures ChangeFits(StatusOf(s, id), Some(Approving), StatusOf(Apply(s, Commit(t)), id))
  {
    assert ThreadOk(s, s.threads[t]);
  }

  lemma UseFits(s: State, t: nat, id: string)
    requires Inv(s) && Enabled(s, Use(t)) && StatusOf(Apply(s, Use(t)), id) != StatusOf(s, id)
    ensures ChangeFits(StatusOf(s, id), Some(Using), StatusOf(Apply(s, Use(t)), id))
  {
    assert ThreadOk(s, s.threads[t]);
  }

  lemma FinishFits(s: State, t: nat, evidenceId: string, id: string)
    requires Inv(s) && Enabled(s, Finish(t, evidenceId)) && StatusOf(Apply(s, Finish(t, evidenceId)), id) != StatusOf(s, id)
    ensures ChangeFits(StatusOf(s, id), Some(Closing(Agent, Revoked, Overdue(s, s.threads[t].id))),
                       StatusOf(Apply(s, Finish(t, evidenceId)), id))
  {
    hide Inv, ChangeFits;
    CloseFits(s, End(s, t, None), s.threads[t].id, Agent, Revoked, evidenceId, Overdue(s, s.threads[t].id), id);
  }

  lemma FinalizeFits(s: State, a: Action, id: string)
    requires Inv(s) && Enabled(s, a) && a.Finalize? && StatusOf(Apply(s, a), id) != StatusOf(s, id)
    ensures ChangeFits(StatusOf(s, id), Some(Closing(a.source, a.status, Overdue(s, a.id))), StatusOf(Apply(s, a), id))
  {
    hide Inv, ChangeFits;
    CloseFits(s, s, a.id, a.source, a.status, a.evidenceId, Overdue(s, a.id), id);
  }

  lemma CloseFits(s: State, same: State, closed: string, source: Source, status: Status, evidenceId: string, due: bool, id: string)
    requires Inv(s) && same.grants == s.grants && same.evidence == s.evidence
    requires Final(status) && (status.Expired? ==> source.Ttl?)
    requires StatusOf(Close(same, closed, source, status, evidenceId), id) != StatusOf(s, id)
    ensures ChangeFits(StatusOf(s, id), Some(Closing(source, status, due)), StatusOf(Close(same, closed, source, status, evidenceId), id))
  {
    assert GrantOk(s, closed);
  }

  lemma OthersKeepGrants(s: State, a: Action)
    requires Enabled(s, a)
    requires !a.Create? && !a.Commit? && !a.Use? && !a.Finish? && !a.Finalize? && !a.Reserve? && !a.Prove?
    ensures Apply(s, a).grants == s.grants && TriggerOf(s, a).None?
  {
    hide Enabled;
    match a
    case Consume(input) => ConsumeKeepsGrants(s, a);
    case Exchange(_, _, _, _, _, _) => ExchangeKeepsGrants(s, a);
    case Complete(_, _, _, _) => { hide CompletionFits; }
    case _ => { hide Dpop.SeenAfter, Dpop.Verdict, ApproveCheck; }
  }

  lemma ConsumeKeepsGrants(s: State, a: Action)
    requires Enabled(s, a) && a.Consume?
    ensures Apply(s, a).grants == s.grants && Apply(s, a).idempotency == s.idempotency
  {
    hide ConsumeCheck, ConsumeClaims;
  }

  lemma ExchangeKeepsGrants(s: State, a: Action)
    requires Enabled(s, a) && a.Exchange?
    ensures Apply(s, a).grants == s.grants && Apply(s, a).seen == s.seen && Apply(s, a).idempotency == s.idempotency
  {
    hide StartExchange, Propose;
    StartKeepsGrants(s, Propose(a.p, a.authority, a.decision, a.maxTtl, a.id, a.reference, s.clock), a.p, a.id);
  }

  lemma StartKeepsGrants(s: State, r: Result<Grant, Error>, p: Proposal, id: string)
    ensures StartExchange(s, r, p, id).grants == s.grants && StartExchange(s, r, p, id).seen == s.seen
    ensures StartExchange(s, r, p, id).idempotency == s.idempotency
  {
  }

  lemma ReserveKeepsGrants(s: State, t: nat)
    requires Enabled(s, Reserve(t))
    ensures ReserveToken(s, t).grants == s.grants && ReserveToken(s, t).idempotency == s.idempotency
  {
  }

  lemma ProveKeepsGrants(s: State, t: nat)
    requires Enabled(s, Prove(t))
    ensures ProveUse(s, t).grants == s.grants && ProveUse(s, t).idempotency == s.idempotency
  {
    hide Dpop.Verdict, Dpop.SeenAfter;
  }

  /** A completion under a credential is for an approved or consumed grant, as the table asks, at whatever moment it ends. */
  lemma AuthenticatedCompletionFollowsTable(acts: seq<Action>, t: nat, evidenceId: string, id: string)
    requires Legal(acts) && Enabled(After(acts), Finish(t, evidenceId))
    requires StatusOf(Apply(After(acts), Finish(t, evidenceId)), id) != StatusOf(After(acts), id)
    ensures StatusOf(After(acts), id) == Some(Approved) || StatusOf(After(acts), id) == Some(Consumed)
    ensures StatusOf(Apply(After(acts), Finish(t, evidenceId)), id) == Some(Revoked)
    ensures TriggerOf(After(acts), Finish(t, evidenceId)).Some?
    ensures FollowsRow(StatusOf(After(acts), id), TriggerOf(After(acts), Finish(t, evidenceId)).value, Revoked)
  {
    Reachable(acts);
    var s := After(acts);
    assert ThreadOk(s, s.threads[t]) && GrantOk(s, id);
  }

  /** Any proposed grant nobody works on can be closed by the agent, for which the table has no row. */
  lemma AgentMayCloseProposed(acts: seq<Action>, id: string, evidenceId: string)
    requires Legal(acts) && StatusOf(After(acts), id) == Some(Proposed) && id !in After(acts).holder
    ensures
      var complete := Finalize(id, Agent, Revoked, evidenceId);
      && Legal(acts + [complete]) && StatusOf(After(acts + [complete]), id) == Some(Revoked)
      && !FollowsRow(Some(Proposed), TriggerOf(After(acts), complete).value, Revoked)
  {
    hide Inv;
    var complete := Finalize(id, Agent, Revoked, evidenceId);
    Reachable(acts);
    ProposedIsOpen(After(acts), id);
    assert (acts + [complete])[..|acts|] == acts;
  }

  lemma ProposedIsOpen(s: State, id: string)
    requires Inv(s) && StatusOf(s, id) == Some(Proposed)
    ensures id !in s.evidence
  {
    assert GrantOk(s, id);
  }

  /** A proposal that waits for an approver, in a schedule of its own. */
  lemma ProposedAlone() returns (acts: seq<Action>, id: string)
    ensures Legal(acts) && StatusOf(After(acts), id) == Some(Proposed) && id !in After(acts).holder
    ensures After(acts).clock < After(acts).grants[id].expiresAt
  {
    id := "grant";
    var scope: seq<string> := ["read"];
    var p := Proposal("agent", "subject", "token", "https://r.example/", "https://r.example", "GET /", true,
                      scope, "thumbprint", None, None);
    var authority := Authority(scope, scope, [p.resource]);
    var exchange, create := Exchange(p, Some(authority), RequireApproval, 60, id, "approval"), Create(0);
    AllowedScopeWithin(scope, authority);
    assert scope[0] != "" && p.resource == authority.resources[0];
    assert ProposalComplete(p);
    var r := Propose(p, Some(authority), RequireApproval, 60, id, "approval", 0);
    assert r.Ok? && r.value.status.Proposed?;
    acts := [exchange, create];
    assert [exchange][..0] == [] && acts[..1] == [exchange];
    assert Legal([]) && After([]) == Initial && Enabled(Initial, exchange);
    assert After([exchange]) == StartExchange(Initial, r, p, id);
    assert Enabled(After([exchange]), create);
    assert After(acts) == CreateGrant(After([exchange]), 0);
  }

  /** So some schedule has an agent complete a grant that nobody approved. */
  lemma AgentClosesProposed() returns (acts: seq<Action>, complete: Action, id: string)
    ensures complete.Finalize? && complete.source == Agent
    ensures Legal(acts) && Legal(acts + [complete])
    ensures StatusOf(After(acts), id) == Some(Proposed) && StatusOf(After(acts + [complete]), id) == Some(Revoked)
  {
    acts, id := ProposedAlone();
    complete := Finalize(id, Agent, Revoked, "evidence");
    AgentMayCloseProposed(acts, id, "evidence");
  }

  /** `expire` does not look at the clock: it ends any active grant nobody works on, and follows its row exactly once that is due. */
  lemma ExpireFollowsIff(acts: seq<Action>, id: string, evidenceId: string)
    requires Legal(acts) && id !in After(acts).holder
    requires StatusOf(After(acts), id).Some? && Active(StatusOf(After(acts), id).value)
    ensures
      var expire := Finalize(id, Ttl, Expired, evidenceId);
      && Legal(acts + [expire]) && StatusOf(After(acts + [expire]), id) == Some(Expired)
      && (FollowsRow(StatusOf(After(acts), id), TriggerOf(After(acts), expire).value, Expired)
          <==> After(acts).grants[id].expiresAt <= After(acts).clock)
  {
    hide Inv, Close;
    var expire := Finalize(id, Ttl, Expired, evidenceId);
    Reachable(acts);
    ActiveIsOpen(After(acts), id);
    assert (acts + [expire])[..|acts|] == acts;
    CloseOpen(After(acts), id, Ttl, Expired, evidenceId);
  }

  lemma ActiveIsOpen(s: State, id: string)
    requires Inv(s) && StatusOf(s, id).Some? && Active(StatusOf(s, id).value)
    ensures id !in s.evidence
  {
    assert GrantOk(s, id);
  }

  lemma CloseOpen(s: State, id: string, source: Source, status: Status, evidenceId: string)
    requires StatusOf(s, id).Some? && Active(StatusOf(s, id).value) && id !in s.evidence
    ensures StatusOf(Close(s, id, source, status, evidenceId), id) == Some(status)
  {
  }

  /** A schedule in which a grant expires ahead of its deadline. */
  lemma ExpiresEarly() returns (acts: seq<Action>, expire: Action, id: string)
    ensures expire == Finalize(id, Ttl, Expired, "evidence") && Legal(acts) && Legal(acts + [expire])
    ensures id in After(acts).grants && After(acts).clock < After(acts).grants[id].expiresAt
    ensures StatusOf(After(acts), id) == Some(Proposed) && StatusOf(After(acts + [expire]), id) == Some(Expired)
  {
    acts, id := ProposedAlone();
    expire := Finalize(id, Ttl, Expired, "evidence");
    ExpireFollowsIff(acts, id, "evidence");
  }

  // --- a consume presents the credential of its grant ---

  ghost predicate MintedFor(log: seq<Entry>, id: string, claims: Claims) {
    exists k :: 0 <= k < |log| && log[k].Credential? && log[k].id == id && log[k].claims == claims
  }

  ghost predicate ThreadBacked(thread: Thread, log: seq<Entry>) {
    match thread
    case Proving(id, claims, _, _) => MintedFor(log, id, claims)
    case Proved(id, claims, _) => MintedFor(log, id, claims)
    case _ => true
  }

  /** What consumes, or has consumed, did so with a credential given out before for that grant. */
  ghost predicate Backed(s: State) {
    && (forall t {:trigger s.threads[t]} :: 0 <= t < |s.threads| ==> ThreadBacked(s.threads[t], s.log))
    && (forall j {:trigger s.log[j]} :: 0 <= j < |s.log| && s.log[j].Consumption? ==>
          MintedFor(s.log[..j], s.log[j].id, s.log[j].claims))
  }

  lemma MintedStays(log: seq<Entry>, longer: seq<Entry>, id: string, claims: Claims)
    requires log <= longer && MintedFor(log, id, claims)
    ensures MintedFor(longer, id, claims)
  {
    var k :| 0 <= k < |log| && log[k].Credential? && log[k].id == id && log[k].claims == claims;
    assert longer[k] == log[k];
  }

  ghost predicate SameBut(threads: seq<Thread>, threads': seq<Thread>, t: nat) {
    && |threads| <= |threads'|
    && forall u {:trigger threads'[u]} :: 0 <= u < |threads'| && u != t ==> u < |threads| && threads'[u] == threads[u]
  }

  /** One request moves or is added, and perhaps one entry: the rest stays backed. */
  lemma BackedStays(s: State, s': State, t: nat)
    requires Backed(s) && s.log <= s'.log <= s'.log && |s'.log| <= |s.log| + 1
    requires SameBut(s.threads, s'.threads, t)
    requires t < |s'.threads| ==> ThreadBacked(s'.threads[t], s'.log)
    requires |s'.log| > |s.log| && s'.log[|s.log|].Consumption? ==>
               MintedFor(s.log, s'.log[|s.log|].id, s'.log[|s.log|].claims)
    ensures Backed(s')
  {
    hide MintedFor;
    forall u | 0 <= u < |s'.threads| ensures ThreadBacked(s'.threads[u], s'.log) {
      var thread := s'.threads[u];
      if u != t && (thread.Proving? || thread.Proved?) {
        assert thread == s.threads[u] && ThreadBacked(s.threads[u], s.log);
        MintedStays(s.log, s'.log, thread.id, thread.claims);
      }
    }
    forall j | 0 <= j < |s'.log| && s'.log[j].Consumption? ensures MintedFor(s'.log[..j], s'.log[j].id, s'.log[j].claims) {
      if j < |s.log| {
        assert s'.log[j] == s.log[j] && s'.log[..j] == s.log[..j];
      } else {
        assert s'.log[..j] == s.log;
      }
    }
  }

  /** A credential that verifies and is genuine was given out for the grant it names. */
  lemma PresentedIsMinted(s: State, input: ConsumeInput)
    requires Inv(s) && Genuine(s, input.credential) && ConsumeClaims(input).Ok?
    ensures MintedFor(s.log, ConsumeClaims(input).value.grantId, ConsumeClaims(input).value)
  {
    var k :| 0 <= k < |s.log| && s.log[k].Credential? && s.log[k].claims == input.credential.claims;
    assert EntryOk(s, s.log[k]);
    assert GrantOk(s, s.log[k].id);
  }

  /** At most request `t` moves or is added, it does not consume, and at most a credential is logged. */
  ghost predicate Quiet(s: State, s': State, t: nat) {
    && s.log <= s'.log && |s'.log| <= |s.log| + 1 && (|s'.log| > |s.log| ==> s'.log[|s.log|].Credential?)
    && SameBut(s.threads, s'.threads, t)
    && (t < |s'.threads| ==> !s'.threads[t].Proving? && !s'.threads[t].Proved?)
  }

  lemma QuietStart(s: State, a: Action)
    requires Enabled(s, a) && (a.Tick? || a.Exchange? || a.Approve? || a.Complete? || a.Finalize? || a.Sweep?)
    ensures Quiet(s, Apply(s, a), |s.threads|)
  {
    hide Enabled, Quiet, Propose, ApproveCheck, CompletionFits, Dpop.Prune;
    AddedIsQuiet(s, Apply(s, a));
  }

  /** At most a request is added, at one of the points before anything is proved. */
  lemma AddedIsQuiet(s: State, s': State)
    requires s'.log == s.log
    requires s.threads <= s'.threads && |s'.threads| <= |s.threads| + 1
    requires |s'.threads| > |s.threads| ==> !s'.threads[|s.threads|].Proving? && !s'.threads[|s.threads|].Proved?
    ensures Quiet(s, s', |s.threads|)
  {
  }

  lemma QuietMove(s: State, a: Action)
    requires Enabled(s, a) && (a.Create? || a.Sign? || a.Reserve? || a.Commit? || a.Confirm? || a.Finish?)
    ensures Quiet(s, Apply(s, a), a.t)
  {
    hide Quiet, Dpop.SeenAfter, Dpop.Verdict;
    match a
    case Create(t) => QuietCreate(s, t);
    case Sign(_, _) => QuietSign(s, a);
    case Reserve(t) => QuietReserve(s, t);
    case Commit(t) => MoveIsQuiet(s, Apply(s, a), t);
    case Confirm(t) => MoveIsQuiet(s, ConfirmProof(s, t), t);
    case Finish(t, _) => MoveIsQuiet(s, Apply(s, a), t);
  }

  lemma MoveIsQuiet(s: State, s': State, t: nat)
    requires ThreadAt(s, t) && |s'.threads| == |s.threads| && s'.threads == s.threads[t := s'.threads[t]] && s'.log == s.log
    requires !s'.threads[t].Proving? && !s'.threads[t].Proved?
    ensures Quiet(s, s', t)
  {
  }

  lemma QuietCreate(s: State, t: nat)
    requires Enabled(s, Create(t))
    ensures Quiet(s, CreateGrant(s, t), t)
  {
    hide Quiet;
    MoveIsQuiet(s, CreateGrant(s, t), t);
  }

  lemma QuietReserve(s: State, t: nat)
    requires Enabled(s, Reserve(t))
    ensures Quiet(s, ReserveToken(s, t), t)
  {
    hide Quiet;
    MoveIsQuiet(s, ReserveToken(s, t), t);
  }

  lemma QuietSign(s: State, a: Action)
    requires Enabled(s, a) && a.Sign?
    ensures Quiet(s, Apply(s, a), a.t)
  {
    hide Mint;
  }

  lemma QuietKeepsBacked(s: State, a: Action)
    requires Backed(s) && Enabled(s, a) && !a.Consume? && !a.Prove? && !a.Use?
    ensures Backed(Apply(s, a))
  {
    hide Enabled, Apply, Backed;
    if a.Create? || a.Sign? || a.Reserve? || a.Commit? || a.Confirm? || a.Finish? {
      QuietMove(s, a);
      BackedStays(s, Apply(s, a), a.t);
    } else {
      QuietStart(s, a);
      BackedStays(s, Apply(s, a), |s.threads|);
    }
  }

  lemma StepKeepsBacked(s: State, a: Action)
    requires Inv(s) && Backed(s) && Enabled(s, a)
    ensures Backed(Apply(s, a))
  {
    hide Inv, Backed, MintedFor;
    var s' := Apply(s, a);
    if a.Consume? {
      if s' != s {
        PresentedIsMinted(s, a.input);
        BackedStays(s, s', |s.threads|);
      }
    } else if a.Prove? || a.Use? {
      HolderIsBacked(s, a.t);
      BackedStays(s, s', a.t);
    } else {
      QuietKeepsBacked(s, a);
    }
  }

  lemma HolderIsBacked(s: State, t: nat)
    requires Backed(s) && ThreadAt(s, t) && (s.threads[t].Proving? || s.threads[t].Proved?)
    ensures MintedFor(s.log, s.threads[t].id, s.threads[t].claims)
  {
    assert ThreadBacked(s.threads[t], s.log);
  }

  lemma {:induction false} AlwaysBacked(acts: seq<Action>)
    requires Legal(acts)
    ensures Backed(After(acts))
  {
    if acts != [] {
      hide Inv, Enabled, Apply, Backed;
      AlwaysBacked(acts[..|acts| - 1]);
      Reachable(acts[..|acts| - 1]);
      StepKeepsBacked(After(acts[..|acts| - 1]), acts[|acts| - 1]);
    }
  }

  /** Every consume was preceded by the one credential of its grant, and presented exactly that one. */
  lemma ConsumedByItsCredential(acts: seq<Action>, j: nat) returns (k: nat)
    requires Legal(acts) && j < |After(acts).log| && After(acts).log[j].Consumption?
    ensures k < j && After(acts).log[k].Credential? && After(acts).log[k].id == After(acts).log[j].id
    ensures After(acts).log[k].claims == After(acts).log[j].claims
    ensures forall i: nat :: i < |After(acts).log| && After(acts).log[i].Credential? && After(acts).log[i].id == After(acts).log[j].id ==> i == k
  {
    Reachable(acts);
    AlwaysBacked(acts);
    var log := After(acts).log;
    assert MintedFor(log[..j], log[j].id, log[j].claims);
    k :| 0 <= k < j && log[..j][k].Credential? && log[..j][k].id == log[j].id && log[..j][k].claims == log[j].claims;
    forall i: nat | i < |log| && i != k && log[i].Credential? ensures log[i].id != log[k].id {
      assert log[i].Credential? == log[k].Credential?;
    }
  }
}
