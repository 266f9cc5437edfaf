/**
  What was asked, checked and proved before a step that changes a grant, whatever else ran in between
  (packages/broker/src/broker.ts:129-306).
 */
module BrokerHistories {
  import opened Wrappers
  import opened BrokerTypes
  import opened BrokerRules
  import opened BrokerInterleaving
  import opened BrokerSchedules
  import BrokerLaws
  import BrokerOutcomes
  import Dpop

  // --- what never changes about a grant ---

  ghost predicate TermsKept(s: State, s': State) {
    forall id :: id in s.grants ==> id in s'.grants && BrokerLaws.Terms(s'.grants[id]) == BrokerLaws.Terms(s.grants[id])
  }

  lemma SameGrantsKept(s: State, s': State)
    requires s'.grants == s.grants
    ensures TermsKept(s, s')
  {
  }

  lemma CreateKeepsTerms(s: State, t: nat)
    requires Inv(s) && Enabled(s, Create(t))
    ensures TermsKept(s, CreateGrant(s, t))
  {
    assert ThreadOk(s, s.threads[t]);
  }

  lemma MoveKeepsTerms(s: State, a: Action)
    requires Enabled(s, a) && (a.Commit? || a.Use? || a.Finish? || a.Finalize?)
    ensures TermsKept(s, Apply(s, a))
  {
    hide CreateGrant, ReserveToken, ProveUse, ConfirmProof, Mint;
    match a
    case Commit(t) => MovedKeepsTerms(s, Apply(s, a), s.threads[t].id);
    case Use(t) => MovedKeepsTerms(s, Apply(s, a), s.threads[t].id);
    case Finish(t, evidenceId) => CloseKeepsTerms(End(s, t, None), s.threads[t].id, Agent, Revoked, evidenceId);
    case Finalize(id, source, status, evidenceId) => CloseKeepsTerms(s, id, source, status, evidenceId);
  }

  lemma MovedKeepsTerms(s: State, s': State, id: string)
    requires id in s.grants && id in s'.grants && s'.grants == s.grants[id := s'.grants[id]]
    requires BrokerLaws.Terms(s'.grants[id]) == BrokerLaws.Terms(s.grants[id])
    ensures TermsKept(s, s')
  {
  }

  lemma CloseKeepsTerms(s: State, id: string, source: Source, status: Status, evidenceId: string)
    ensures TermsKept(s, Close(s, id, source, status, evidenceId))
  {
  }

  lemma StepKeepsTerms(s: State, a: Action)
    requires Inv(s) && Enabled(s, a)
    ensures TermsKept(s, Apply(s, a))
  {
    hide Inv, Enabled, TermsKept;
    if a.Create? {
      CreateKeepsTerms(s, a.t);
    } else if a.Commit? || a.Use? || a.Finish? || a.Finalize? {
      hide Apply;
      MoveKeepsTerms(s, a);
    } else if a.Reserve? {
      hide ReserveToken;
      ReserveKeepsGrants(s, a.t);
      SameGrantsKept(s, Apply(s, a));
    } else if a.Prove? {
      hide ProveUse;
      ProveKeepsGrants(s, a.t);
      SameGrantsKept(s, Apply(s, a));
    } else {
      hide Apply;
      OthersKeepGrants(s, a);
      SameGrantsKept(s, Apply(s, a));
    }
  }

  /** From any point of a schedule on a grant keeps its terms: only its progress changes. */
  lemma {:induction false} TermsStay(acts: seq<Action>, n: nat, id: string)
    requires Legal(acts) && n <= |acts| && Legal(acts[..n]) && id in After(acts[..n]).grants
    ensures id in After(acts).grants
    ensures BrokerLaws.Terms(After(acts).grants[id]) == BrokerLaws.Terms(After(acts[..n]).grants[id])
  {
    hide Inv, Enabled, Apply;
    if n == |acts| {
      assert acts[..n] == acts;
    } else {
      var last := |acts| - 1;
      assert acts[..last][..n] == acts[..n];
      TermsStay(acts[..last], n, id);
      Reachable(acts[..last]);
      StepKeepsTerms(After(acts[..last]), acts[last]);
    }
  }

  // --- which step made a thread what it is ---

  function ThreadOf(s: State, t: nat): Option<Thread> {
    if ThreadAt(s, t) then Some(s.threads[t]) else None
  }

  /** The step at `m` is the last one that changed where the request stands. */
  ghost predicate MadeAt(acts: seq<Action>, m: nat, t: nat, thread: Thread) {
    && m < |acts| && Legal(acts[..m]) && Enabled(After(acts[..m]), acts[m])
    && ThreadOf(After(acts[..m]), t) != Some(thread)
    && ThreadOf(Apply(After(acts[..m]), acts[m]), t) == Some(thread)
  }

  lemma {:induction false} LastMade(acts: seq<Action>, t: nat) returns (m: nat)
    requires Legal(acts) && ThreadAt(After(acts), t)
    ensures MadeAt(acts, m, t, After(acts).threads[t])
  {
    hide Enabled, Apply;
    var last := |acts| - 1;
    var s := After(acts[..last]);
    if ThreadOf(s, t) == Some(After(acts).threads[t]) {
      m := LastMade(acts[..last], t);
      assert acts[..last][..m] == acts[..m];
    } else {
      m := last;
    }
  }

  /** Every step touches at most the request it is of, or starts one. */
  function MoverOf(s: State, a: Action): nat {
    match a
    case Create(t) => t
    case Sign(t, _) => t
    case Reserve(t) => t
    case Commit(t) => t
    case Prove(t) => t
    case Use(t) => t
    case Confirm(t) => t
    case Finish(t, _) => t
    case _ => |s.threads|
  }

  /** Which steps put a request where. */
  ghost predicate Leads(a: Action, thread: Thread) {
    match thread
    case Creating(_, _) => a.Exchange?
    case Reserving(_, _) => a.Approve?
    case Reserved(_, _) => a.Reserve?
    case Signing(_, _) => a.Create? || a.Commit?
    case Proving(_, _, _, _) => a.Consume?
    case Proved(_, _, _) => a.Prove?
    case Confirming(_, _, _, _) => a.Complete?
    case Confirmed(_) => a.Confirm?
    case Ended => true
  }

  predicate Starter(a: Action) {
    a.Exchange? || a.Approve? || a.Consume? || a.Complete?
  }

  lemma StartsOne(s: State, a: Action, t: nat)
    requires Enabled(s, a) && Starter(a) && ThreadOf(Apply(s, a), t) != ThreadOf(s, t)
    ensures t == |s.threads| && ThreadAt(Apply(s, a), t) && Leads(a, Apply(s, a).threads[t])
  {
    hide ApproveCheck, ConsumeCheck, ConsumeClaims, CompletionFits, Propose, Genuine;
  }

  lemma ClosesNone(s: State, a: Action, t: nat)
    requires Enabled(s, a) && (a.Tick? || a.Sweep? || a.Finalize?)
    ensures ThreadOf(Apply(s, a), t) == ThreadOf(s, t)
  {
    hide Dpop.Prune, Close;
    if a.Finalize? {
      CloseKeepsThreads(s, a.id, a.source, a.status, a.evidenceId);
    }
  }

  lemma EndsOne(s: State, a: Action, t: nat)
    requires Enabled(s, a) && (a.Sign? || a.Use? || a.Finish?) && ThreadOf(Apply(s, a), t) != ThreadOf(s, t)
    ensures t == MoverOf(s, a) && ThreadAt(s, t) && ThreadAt(Apply(s, a), t) && Leads(a, Apply(s, a).threads[t])
  {
    hide CreateGrant, ReserveToken, ProveUse, ConfirmProof, Close, Mint, ConsumedAt;
    if a.Finish? {
      CloseKeepsThreads(End(s, a.t, None), s.threads[a.t].id, Agent, Revoked, a.evidenceId);
    }
  }

  lemma DecidesOne(s: State, a: Action, t: nat)
    requires Enabled(s, a) && (a.Create? || a.Reserve? || a.Commit?) && ThreadOf(Apply(s, a), t) != ThreadOf(s, t)
    ensures t == MoverOf(s, a) && ThreadAt(s, t) && ThreadAt(Apply(s, a), t) && Leads(a, Apply(s, a).threads[t])
  {
    hide ProveUse, ConfirmProof, Close, Mint, ApprovedBy;
  }

  lemma JudgesOne(s: State, a: Action, t: nat)
    requires Enabled(s, a) && (a.Prove? || a.Confirm?) && ThreadOf(Apply(s, a), t) != ThreadOf(s, t)
    ensures t == MoverOf(s, a) && ThreadAt(s, t) && ThreadAt(Apply(s, a), t) && Leads(a, Apply(s, a).threads[t])
  {
    hide CreateGrant, ReserveToken, Dpop.Verdict, Dpop.SeenAfter, Close, Mint;
  }

  lemma OthersWait(s: State, a: Action, t: nat)
    requires Enabled(s, a) && ThreadOf(Apply(s, a), t) != ThreadOf(s, t)
    ensures t == MoverOf(s, a) && ThreadAt(Apply(s, a), t) && Leads(a, Apply(s, a).threads[t])
  {
    hide Apply, Enabled;
    if Starter(a) {
      StartsOne(s, a, t);
    } else if a.Sign? || a.Use? || a.Finish? {
      EndsOne(s, a, t);
    } else if a.Prove? || a.Confirm? {
      JudgesOne(s, a, t);
    } else if a.Tick? || a.Sweep? || a.Finalize? {
      ClosesNone(s, a, t);
    } else {
      DecidesOne(s, a, t);
    }
  }

  lemma CloseKeepsThreads(s: State, id: string, source: Source, status: Status, evidenceId: string)
    ensures Close(s, id, source, status, evidenceId).threads == s.threads
  {
  }

  // --- consuming ---

  /** A consume that passes the checks made before its proof is looked at. */
  ghost predicate MayBegin(s: State, input: ConsumeInput) {
    && input.credential.Signed?
    && var id := input.credential.claims.grantId;
       && id in s.grants
       && var g := s.grants[id];
          && input.credential.claims == Mint(g) && g.dpopThumbprint != "" && g.expiresAt >= 1000
          && g.status.Approved? && s.clock < g.expiresAt && BrokerLaws.AsGranted(g, input)
  }

  lemma PresentedSays(s: State, credential: BrokerTypes.Credential)
    requires Inv(s) && Genuine(s, credential) && credential.Signed?
    ensures credential.claims.grantId in s.grants && credential.claims == Mint(s.grants[credential.claims.grantId])
    ensures s.grants[credential.claims.grantId].id == credential.claims.grantId
  {
    var k :| 0 <= k < |s.log| && s.log[k].Credential? && s.log[k].claims == credential.claims;
    assert EntryOk(s, s.log[k]);
    assert GrantOk(s, s.log[k].id);
  }

  /** A consume begins its section exactly if it passes the checks, and else changes nothing. */
  lemma ConsumeBegins(acts: seq<Action>, input: ConsumeInput)
    requires Legal(acts) && Enabled(After(acts), Consume(input))
    ensures
      var s := After(acts);
      Apply(s, Consume(input)) ==
        if MayBegin(s, input)
        then Begin(s, input.credential.claims.grantId,
                   Proving(input.credential.claims.grantId, input.credential.claims, input.proof.dpop, s.clock))
        else s
  {
    hide Inv, Genuine, Begin, Mint;
    Reachable(acts);
    if input.credential.Signed? {
      PresentedSays(After(acts), input.credential);
      MintChecks(After(acts).grants[input.credential.claims.grantId], input, After(acts).clock);
    }
  }

  lemma MintChecks(g: Grant, input: ConsumeInput, now: int)
    ensures VerifyCredential(Signed(Mint(g)), 0, true) ==
              if g.dpopThumbprint != "" && g.expiresAt >= 1000 then Ok(Mint(g)) else Err(InvalidCredential)
    ensures VerifyCredential(Signed(Mint(g)), now, false) ==
              if g.dpopThumbprint != "" && g.expiresAt >= 1000 && now < g.expiresAt / 1000 * 1000 then Ok(Mint(g))
              else Err(InvalidCredential)
    ensures ConsumeCheck(g, Mint(g), input, now).None? <==>
              g.status.Approved? && now < g.expiresAt && BrokerLaws.AsGranted(g, input)
    ensures CompleteCheck(g, Mint(g), input.proof).None? <==> input.proof.verb == "POST"
  {
  }

  /** The proof at a step fits the key and the reading it is judged by, and its `jti` is not live then. */
  ghost predicate ProofPasses(s: State, proof: Dpop.Proof, thumbprint: string, startedAt: int) {
    BrokerLaws.ProofFits(proof, thumbprint, startedAt) && !BrokerLaws.Live(s.seen, proof.jti, startedAt)
  }

  lemma ProveMoves(s: State, t: nat)
    requires Enabled(s, Prove(t)) && ProveUse(s, t).threads[t].Proved?
    ensures ThreadAt(s, t) && s.threads[t].Proving? && s.threads[t].id in s.grants
    ensures
      var (made, was) := (ProveUse(s, t).threads[t], s.threads[t]);
      && was.id == made.id && was.claims == made.claims && was.startedAt == made.startedAt
      && ProofPasses(s, was.proof, s.grants[was.id].dpopThumbprint, was.startedAt)
  {
    hide Dpop.Verdict, Dpop.SeenAfter;
    BrokerLaws.VerdictIs(s.seen, s.threads[t].proof, s.grants[s.threads[t].id].dpopThumbprint, s.threads[t].startedAt);
  }

  lemma MakesProved(s: State, a: Action, t: nat)
    requires Enabled(s, a) && ThreadOf(Apply(s, a), t) != ThreadOf(s, t) && ThreadAt(Apply(s, a), t)
    requires Apply(s, a).threads[t].Proved?
    ensures a == Prove(t) && ThreadAt(s, t) && s.threads[t].Proving? && s.threads[t].id in s.grants
    ensures
      var (made, was) := (Apply(s, a).threads[t], s.threads[t]);
      && was.id == made.id && was.claims == made.claims && was.startedAt == made.startedAt
      && ProofPasses(s, was.proof, s.grants[was.id].dpopThumbprint, was.startedAt)
  {
    hide Enabled, ProveUse, ProofPasses;
    OthersWait(s, a, t);
    ProveMoves(s, t);
  }

  lemma MakesProving(s: State, a: Action, t: nat)
    requires Enabled(s, a) && ThreadOf(Apply(s, a), t) != ThreadOf(s, t) && ThreadAt(Apply(s, a), t)
    requires Apply(s, a).threads[t].Proving?
    ensures a.Consume? && t == |s.threads| && Apply(s, a) != s
    ensures Apply(s, a).threads[t].proof == a.input.proof.dpop
  {
    hide ConsumeCheck, ConsumeClaims, Genuine;
    OthersWait(s, a, t);
  }

  /** The terms a credential and a proof are held against are those of the grant at any later point. */
  lemma SameDemands(acts: seq<Action>, n: nat, id: string)
    requires Legal(acts) && n <= |acts| && Legal(acts[..n]) && id in After(acts[..n]).grants
    ensures id in After(acts).grants
    ensures
      var (g, g') := (After(acts[..n]).grants[id], After(acts).grants[id]);
      g'.dpopThumbprint == g.dpopThumbprint && g'.expiresAt == g.expiresAt && Mint(g') == Mint(g)
  {
    TermsStay(acts, n, id);
    var (g, g') := (After(acts[..n]).grants[id], After(acts).grants[id]);
    assert BrokerLaws.Terms(g).dpopThumbprint == BrokerLaws.Terms(g').dpopThumbprint;
    assert Mint(BrokerLaws.Terms(g)) == Mint(BrokerLaws.Terms(g'));
  }

  lemma BeginsOnlyIf(acts: seq<Action>, input: ConsumeInput)
    requires Legal(acts) && Enabled(After(acts), Consume(input)) && Apply(After(acts), Consume(input)) != After(acts)
    ensures MayBegin(After(acts), input)
    ensures
      var (s, s') := (After(acts), Apply(After(acts), Consume(input)));
      ThreadAt(s', |s.threads|) &&
      s'.threads[|s.threads|] == Proving(input.credential.claims.grantId, input.credential.claims, input.proof.dpop, s.clock)
  {
    hide MayBegin;
    ConsumeBegins(acts, input);
  }

  /**
    In every schedule a grant is consumed only for a request that brought, when its section began, the
    credential minted for the grant, approved and in time, the granted request, and later, when its proof
    was judged by the reading of that moment, a fresh one for the grant's key whose `jti` was not live.  The
    grant then differs from what it was in its status and the time only.
   */
  lemma UseWasChecked(acts: seq<Action>, t: nat) returns (n: nat, m: nat)
    requires Legal(acts) && Enabled(After(acts), Use(t))
    ensures n < m < |acts| && Legal(acts[..n]) && Legal(acts[..m])
    ensures acts[n].Consume? && acts[m] == Prove(t) && MayBegin(After(acts[..n]), acts[n].input)
    ensures
      var (s, s', input) := (After(acts), Apply(After(acts), Use(t)), acts[n].input);
      var id := input.credential.claims.grantId;
      && id in s.grants
      && ProofPasses(After(acts[..m]), input.proof.dpop, s.grants[id].dpopThumbprint, After(acts[..n]).clock)
      && s'.grants == s.grants[id := s.grants[id].(status := Consumed, consumedAt := Some(s.clock))]
  {
    hide Apply, Enabled, MayBegin, ProofPasses, Mint;
    UseMoves(After(acts), t);
    m := LastMade(acts, t);
    MakesProved(After(acts[..m]), acts[m], t);
    n := BeganAt(acts, m, t);
    var id := acts[n].input.credential.claims.grantId;
    assert acts[..m][..n] == acts[..n] && acts[..m][n] == acts[n];
    BeginGrant(After(acts[..n]), acts[n].input);
    SameDemands(acts, m, id);
  }

  lemma UseMoves(s: State, t: nat)
    requires Enabled(s, Use(t))
    ensures ThreadAt(s, t) && s.threads[t].Proved? && s.threads[t].id in s.grants
    ensures
      var id := s.threads[t].id;
      Apply(s, Use(t)).grants == s.grants[id := s.grants[id].(status := Consumed, consumedAt := Some(s.clock))]
  {
  }

  lemma BeginGrant(s: State, input: ConsumeInput)
    requires MayBegin(s, input)
    ensures input.credential.Signed? && input.credential.claims.grantId in s.grants
  {
  }

  /** The consume that a proof is being looked at for. */
  lemma BeganAt(acts: seq<Action>, m: nat, t: nat) returns (n: nat)
    requires m <= |acts| && Legal(acts[..m]) && ThreadAt(After(acts[..m]), t) && After(acts[..m]).threads[t].Proving?
    ensures n < m && Legal(acts[..n]) && acts[n].Consume? && MayBegin(After(acts[..n]), acts[n].input)
    ensures acts[n].input.credential.Signed?
    ensures After(acts[..m]).threads[t] ==
      Proving(acts[n].input.credential.claims.grantId, acts[n].input.credential.claims, acts[n].input.proof.dpop, After(acts[..n]).clock)
  {
    hide Apply, Enabled, MayBegin;
    n := LastMade(acts[..m], t);
    assert acts[..m][..n] == acts[..n] && acts[..m][n] == acts[n];
    MakesProving(After(acts[..n]), acts[n], t);
    BeginsOnlyIf(acts[..n], acts[n].input);
    BeginGrant(After(acts[..n]), acts[n].input);
  }

  // --- approving ---

  lemma MakesReserved(s: State, a: Action, t: nat)
    requires Enabled(s, a) && ThreadOf(Apply(s, a), t) != ThreadOf(s, t) && ThreadAt(Apply(s, a), t)
    requires Apply(s, a).threads[t].Reserved?
    ensures a == Reserve(t) && ThreadAt(s, t) && s.threads[t].Reserving? && s.threads[t].id in s.grants
    ensures s.threads[t] == Reserving(Apply(s, a).threads[t].id, Apply(s, a).threads[t].approver)
    ensures
      var token := s.grants[s.threads[t].id].subjectTokenId;
      token in s.owner ==> s.owner[token] == "" || s.owner[token] == s.threads[t].id
  {
    OthersWait(s, a, t);
  }

  lemma MakesReserving(s: State, a: Action, t: nat)
    requires Enabled(s, a) && ThreadOf(Apply(s, a), t) != ThreadOf(s, t) && ThreadAt(Apply(s, a), t)
    requires Apply(s, a).threads[t].Reserving?
    ensures a == Approve(Apply(s, a).threads[t].id, Apply(s, a).threads[t].approver)
    ensures a.id in s.grants && s.grants[a.id].status.Proposed? && s.clock < s.grants[a.id].expiresAt
  {
    OthersWait(s, a, t);
  }

  lemma CommitMoves(s: State, t: nat)
    requires Enabled(s, Commit(t))
    ensures ThreadAt(s, t) && s.threads[t].Reserved? && s.threads[t].id in s.grants
    ensures
      var Reserved(id, approver) := s.threads[t];
      Apply(s, Commit(t)).grants ==
        s.grants[id := s.grants[id].(status := Approved, approver := Some(approver), issuedAt := Some(s.clock))]
  {
  }

  /**
    In every schedule a grant is approved later only on a request that found it proposed and before its
    deadline, and found its subject token free or its own.  It records who that request named and the time.
   */
  lemma CommitWasChecked(acts: seq<Action>, t: nat) returns (n: nat, m: nat)
    requires Legal(acts) && Enabled(After(acts), Commit(t))
    ensures n < m < |acts| && Legal(acts[..n]) && Legal(acts[..m])
    ensures acts[n].Approve? && acts[m] == Reserve(t) && StatusIs(After(acts[..n]), acts[n].id, Proposed)
    ensures After(acts[..n]).clock < After(acts[..n]).grants[acts[n].id].expiresAt
    ensures
      var (s, s', id) := (After(acts), Apply(After(acts), Commit(t)), acts[n].id);
      && id in s.grants
      && var (owner, token) := (After(acts[..m]).owner, s.grants[id].subjectTokenId);
         && (token in owner ==> owner[token] == "" || owner[token] == id)
         && s'.grants ==
              s.grants[id := s.grants[id].(status := Approved, approver := Some(acts[n].approver), issuedAt := Some(s.clock))]
  {
    hide Apply, Enabled;
    CommitMoves(After(acts), t);
    m := LastMade(acts, t);
    MakesReserved(After(acts[..m]), acts[m], t);
    n := LastMade(acts[..m], t);
    assert acts[..m][..n] == acts[..n] && acts[..m][n] == acts[n];
    MakesReserving(After(acts[..n]), acts[n], t);
    SameToken(acts, m, acts[n].id);
  }

  lemma SameToken(acts: seq<Action>, n: nat, id: string)
    requires Legal(acts) && n <= |acts| && Legal(acts[..n]) && id in After(acts[..n]).grants
    ensures id in After(acts).grants && After(acts).grants[id].subjectTokenId == After(acts[..n]).grants[id].subjectTokenId
  {
    TermsStay(acts, n, id);
    var (g, g') := (After(acts[..n]).grants[id], After(acts).grants[id]);
    assert BrokerLaws.Terms(g).subjectTokenId == BrokerLaws.Terms(g').subjectTokenId;
  }

  // --- completing under a credential ---

  /** A completion that passes the checks made before its proof is looked at; its credential was verified at `verifiedAt`. */
  ghost predicate MayAsk(s: State, id: string, credential: BrokerTypes.Credential, proof: RequestProof, verifiedAt: int) {
    && credential.Signed? && credential.claims.grantId == id && id in s.grants
    && var g := s.grants[id];
       && credential.claims == Mint(g) && g.dpopThumbprint != "" && g.expiresAt >= 1000
       && verifiedAt < g.expiresAt / 1000 * 1000 && proof.verb == "POST"
  }

  /** A completion goes on to its proof exactly if it passes the checks, and else changes nothing. */
  lemma CompletionBegins(acts: seq<Action>, id: string, credential: BrokerTypes.Credential, proof: RequestProof, verifiedAt: int)
    requires Legal(acts) && Enabled(After(acts), Complete(id, credential, proof, verifiedAt))
    ensures
      var s := After(acts);
      Apply(s, Complete(id, credential, proof, verifiedAt)) ==
        if MayAsk(s, id, credential, proof, verifiedAt)
        then s.(threads := s.threads + [Confirming(id, s.grants[id].dpopThumbprint, proof.dpop, s.clock)])
        else s
  {
    hide Inv, Genuine, Mint, ConsumeCheck, CompleteCheck;
    Reachable(acts);
    if credential.Signed? {
      PresentedSays(After(acts), credential);
      MintChecks(After(acts).grants[credential.claims.grantId], ConsumeInput(credential, "", proof), verifiedAt);
    } else {
      BrokerLaws.ForgedFails(verifiedAt);
    }
  }

  lemma MakesConfirmed(s: State, a: Action, t: nat)
    requires Enabled(s, a) && ThreadOf(Apply(s, a), t) != ThreadOf(s, t) && ThreadAt(Apply(s, a), t)
    requires Apply(s, a).threads[t].Confirmed?
    ensures a == Confirm(t) && ThreadAt(s, t) && s.threads[t].Confirming? && s.threads[t].id == Apply(s, a).threads[t].id
    ensures ProofPasses(s, s.threads[t].proof, s.threads[t].thumbprint, s.threads[t].startedAt)
  {
    hide Dpop.Verdict, Dpop.SeenAfter;
    OthersWait(s, a, t);
    if a.Confirm? {
      BrokerLaws.VerdictIs(s.seen, s.threads[t].proof, s.threads[t].thumbprint, s.threads[t].startedAt);
    }
  }

  lemma MakesConfirming(s: State, a: Action, t: nat)
    requires Enabled(s, a) && ThreadOf(Apply(s, a), t) != ThreadOf(s, t) && ThreadAt(Apply(s, a), t)
    requires Apply(s, a).threads[t].Confirming?
    ensures a.Complete? && t == |s.threads| && Apply(s, a) != s
  {
    hide CompletionFits, Genuine;
    OthersWait(s, a, t);
  }

  lemma FinishMoves(s: State, t: nat, evidenceId: string)
    requires Enabled(s, Finish(t, evidenceId))
    ensures ThreadAt(s, t) && s.threads[t].Confirmed?
    ensures Apply(s, Finish(t, evidenceId)) == Close(End(s, t, None), s.threads[t].id, Agent, Revoked, evidenceId)
  {
  }

  lemma AsksOnlyIf(acts: seq<Action>, a: Action)
    requires a.Complete? && Legal(acts) && Enabled(After(acts), a) && Apply(After(acts), a) != After(acts)
    ensures MayAsk(After(acts), a.id, a.credential, a.proof, a.verifiedAt) && a.id in After(acts).grants
    ensures
      var (s, s') := (After(acts), Apply(After(acts), a));
      ThreadAt(s', |s.threads|) &&
      s'.threads[|s.threads|] == Confirming(a.id, s.grants[a.id].dpopThumbprint, a.proof.dpop, s.clock)
  {
    hide Mint;
    CompletionBegins(acts, a.id, a.credential, a.proof, a.verifiedAt);
  }

  /**
    In every schedule the agent completes a grant only after a request that brought the unexpired credential
    minted for it and, later, a proof for the grant's key, fresh by the reading of that request, whose `jti`
    was not live.  What it then does is to close that grant.
   */
  lemma FinishWasChecked(acts: seq<Action>, t: nat, evidenceId: string) returns (n: nat, m: nat)
    requires Legal(acts) && Enabled(After(acts), Finish(t, evidenceId))
    ensures n < m < |acts| && Legal(acts[..n]) && Legal(acts[..m])
    ensures acts[n].Complete? && acts[m] == Confirm(t)
    ensures MayAsk(After(acts[..n]), acts[n].id, acts[n].credential, acts[n].proof, acts[n].verifiedAt)
    ensures
      var (s, id) := (After(acts), acts[n].id);
      && id in s.grants
      && ProofPasses(After(acts[..m]), acts[n].proof.dpop, s.grants[id].dpopThumbprint, After(acts[..n]).clock)
      && Apply(s, Finish(t, evidenceId)) == Close(End(s, t, None), id, Agent, Revoked, evidenceId)
  {
    hide Apply, Enabled, MayAsk, ProofPasses, Mint, Close;
    FinishMoves(After(acts), t, evidenceId);
    m := LastMade(acts, t);
    MakesConfirmed(After(acts[..m]), acts[m], t);
    n := LastMade(acts[..m], t);
    assert acts[..m][..n] == acts[..n] && acts[..m][n] == acts[n];
    MakesConfirming(After(acts[..n]), acts[n], t);
    AsksOnlyIf(acts[..n], acts[n]);
    SameDemands(acts, n, acts[n].id);
  }

  // --- proposing ---

  lemma MakesCreating(s: State, a: Action, t: nat)
    requires Enabled(s, a) && ThreadOf(Apply(s, a), t) != ThreadOf(s, t) && ThreadAt(Apply(s, a), t)
    requires Apply(s, a).threads[t].Creating?
    ensures a.Exchange? && Propose(a.p, a.authority, a.decision, a.maxTtl, a.id, a.reference, s.clock) == Ok(Apply(s, a).threads[t].grant)
  {
    hide Propose;
    OthersWait(s, a, t);
  }

  lemma CreateAdds(s: State, t: nat)
    requires Enabled(s, Create(t))
    ensures ThreadAt(s, t) && s.threads[t].Creating?
    ensures
      var g := s.threads[t].grant;
      Apply(s, Create(t)).grants == s.grants || Apply(s, Create(t)).grants == s.grants[g.id := g]
  {
  }

  lemma OnlyCreateAdds(s: State, a: Action, id: string)
    requires Inv(s) && Enabled(s, a) && id !in s.grants && id in Apply(s, a).grants
    ensures a.Create?
  {
    if !a.Create? {
      hide Inv, Apply;
      ChangesFit(s, a, id);
      MoversKnow(s, a);
    }
  }

  lemma MoversKnow(s: State, a: Action)
    requires Inv(s) && Enabled(s, a) && (a.Commit? || a.Use? || a.Finish?)
    ensures s.threads[a.t].id in s.grants
  {
    assert ThreadOk(s, s.threads[a.t]);
  }

  /** The terms are those of the proposal, all of whose scopes the authority has, with a deadline no later than allowed. */
  ghost predicate AsProposed(terms: Grant, e: Action, now: int)
    requires e.Exchange?
  {
    && terms == BrokerLaws.Terms(terms) && terms.id == e.id
    && terms.agentId == e.p.agentId && terms.subjectId == e.p.subjectId && terms.subjectTokenId == e.p.subjectTokenId
    && terms.action == e.p.action && terms.audience == e.p.resource && terms.audienceOrigin == e.p.resourceOrigin
    && terms.requestedScope == e.p.requestedScope && terms.grantedScope == e.p.requestedScope
    && terms.dpopThumbprint == e.p.dpopThumbprint && terms.policyDecision == e.decision
    && terms.approvalReference == (if e.decision.RequireApproval? then Some(e.reference) else None)
    && e.authority.Some? && e.p.resource in e.authority.value.resources
    && BrokerOutcomes.Authorized(e.p.requestedScope, e.authority.value)
    && 0 < BrokerOutcomes.Seconds(e.p, e.maxTtl) <= e.maxTtl
    && terms.expiresAt == now + BrokerOutcomes.Seconds(e.p, e.maxTtl) * 1000
  }

  lemma ProposedTerms(e: Action, now: int)
    requires e.Exchange?
    ensures
      var r := Propose(e.p, e.authority, e.decision, e.maxTtl, e.id, e.reference, now);
      r.Ok? ==> AsProposed(BrokerLaws.Terms(r.value), e, now) && r.value.id == e.id
  {
    hide Propose;
    BrokerOutcomes.ProposalAnswers(e.p, e.authority, e.decision, e.maxTtl, e.id, e.reference, now);
  }

  /** In every schedule the terms of a stored grant are those of one exchange, checked against its authority at its time. */
  lemma {:induction false} GrantWasProposed(acts: seq<Action>, id: string) returns (n: nat)
    requires Legal(acts) && id in After(acts).grants
    ensures n < |acts| && Legal(acts[..n]) && acts[n].Exchange?
    ensures AsProposed(BrokerLaws.Terms(After(acts).grants[id]), acts[n], After(acts[..n]).clock)
  {
    hide Inv, Enabled, Apply, AsProposed;
    var last := |acts| - 1;
    var s := After(acts[..last]);
    Reachable(acts[..last]);
    if id in s.grants {
      n := GrantWasProposed(acts[..last], id);
      assert acts[..last][..n] == acts[..n];
      StepKeepsTerms(s, acts[last]);
    } else {
      OnlyCreateAdds(s, acts[last], id);
      var t := acts[last].t;
      CreateAdds(s, t);
      n := LastMade(acts[..last], t);
      assert acts[..last][..n] == acts[..n] && acts[..last][n] == acts[n];
      MakesCreating(After(acts[..n]), acts[n], t);
      ProposedTerms(acts[n], After(acts[..n]).clock);
    }
  }
}
