/**
  The broker as concurrent requests see it (packages/broker/src/broker.ts:129-416 over
  packages/broker/src/store.ts:119-182).

  Each step is the code between two awaits.  A request inside `mutateGrant` holds the lock
  `grant:<id>`, which `Locks.RefinesHeldKeys` reduces to membership in a set of held keys.  The
  bodies run under `exchange` and `subject:` contain no await, so each is a single step.  Every step
  reads the clock of its own moment; a proof is judged by the reading taken before its signature is
  awaited.  Credentials are those the broker has signed, or forged ones.
 */
module BrokerInterleaving {
  import opened Wrappers
  import opened BrokerTypes
  import opened BrokerRules
  import Dpop

  /** Where a request stands between two steps. */
  datatype Thread =
    | Creating(grant: Grant, key: Option<string>)
    | Reserving(id: string, approver: string)
    | Reserved(id: string, approver: string)
    | Signing(id: string, inLock: bool)
    | Proving(id: string, claims: Claims, proof: Dpop.Proof, startedAt: int)
    | Proved(id: string, claims: Claims, startedAt: int)
    | Confirming(id: string, thumbprint: string, proof: Dpop.Proof, startedAt: int)
    | Confirmed(id: string)
    | Ended

  /**
    What has left the broker: a credential, or a successful consume with the credential presented and
    the time its section began.
   */
  datatype Entry =
    | Credential(id: string, claims: Claims, token: string)
    | Consumption(id: string, claims: Claims, startedAt: int)

  datatype Proof = Proof(id: string, source: Source)

  datatype State = State(
    clock: int,
    issued: set<string>,
    grants: map<string, Grant>,
    owner: map<string, string>,
    idempotency: map<string, string>,
    evidence: map<string, Proof>,
    seen: Dpop.Seen,
    holder: map<string, nat>,
    threads: seq<Thread>,
    log: seq<Entry>)

  datatype Action =
    | Tick(elapsed: nat)
    | Exchange(p: Proposal, authority: Option<Authority>, decision: Decision, maxTtl: int, id: string, reference: string)
    | Create(t: nat)
    | Sign(t: nat, succeeds: bool)
    | Approve(id: string, approver: string)
    | Reserve(t: nat)
    | Commit(t: nat)
    | Consume(input: ConsumeInput)
    | Prove(t: nat)
    | Use(t: nat)
    | Complete(id: string, credential: BrokerTypes.Credential, proof: RequestProof, verifiedAt: int)
    | Confirm(t: nat)
    | Finish(t: nat, evidenceId: string)
    | Finalize(id: string, source: Source, status: Status, evidenceId: string)
    | Sweep

  const Initial := State(0, {}, map[], map[], map[], map[], map[], map[], [], [])

  predicate ThreadAt(s: State, t: nat) {
    t < |s.threads|
  }

  /** The claims a consume request works with; signatures are checked with expiry allowed. */
  function ConsumeClaims(input: ConsumeInput): Result<Claims, Error> {
    VerifyCredential(input.credential, 0, true)
  }

  /** Nobody but the broker signs with its key: a signature is one it has given out. */
  predicate Genuine(s: State, credential: BrokerTypes.Credential) {
    credential.Signed? ==> exists k :: 0 <= k < |s.log| && s.log[k].Credential? && s.log[k].claims == credential.claims
  }

  /** The grant and the checks of `completeAuthenticated` before its proof is looked at. */
  predicate CompletionFits(s: State, id: string, credential: BrokerTypes.Credential, proof: RequestProof, verifiedAt: int) {
    var claims := VerifyCredential(credential, verifiedAt, false);
    claims.Ok? && claims.value.grantId == id && id in s.grants && CompleteCheck(s.grants[id], claims.value, proof).None?
  }

  /** `expire` closes with the source `ttl`, `complete` and `revoke` with any. */
  predicate Enabled(s: State, a: Action) {
    match a
    case Tick(_) => true
    case Exchange(p, authority, decision, maxTtl, id, reference) => id !in s.issued && id != ""
    case Create(t) => ThreadAt(s, t) && s.threads[t].Creating?
    case Sign(t, _) => ThreadAt(s, t) && s.threads[t].Signing?
    case Approve(id, _) => id !in s.holder
    case Reserve(t) => ThreadAt(s, t) && s.threads[t].Reserving? && s.threads[t].id in s.grants
    case Commit(t) => ThreadAt(s, t) && s.threads[t].Reserved? && s.threads[t].id in s.grants
    case Consume(input) =>
      && Genuine(s, input.credential)
      && (ConsumeClaims(input).Ok? ==> ConsumeClaims(input).value.grantId !in s.holder)
    case Prove(t) => ThreadAt(s, t) && s.threads[t].Proving? && s.threads[t].id in s.grants
    case Use(t) => ThreadAt(s, t) && s.threads[t].Proved? && s.threads[t].id in s.grants
    case Complete(_, credential, _, verifiedAt) => Genuine(s, credential) && verifiedAt <= s.clock
    case Confirm(t) => ThreadAt(s, t) && s.threads[t].Confirming?
    case Finish(t, _) => ThreadAt(s, t) && s.threads[t].Confirmed? && s.threads[t].id !in s.holder
    case Finalize(id, source, status, _) => id !in s.holder && Final(status) && (status.Expired? ==> source.Ttl?)
    case Sweep => true
  }

  /** A request ends, giving back the grant lock if it holds it. */
  function End(s: State, t: nat, release: Option<string>): State
    requires ThreadAt(s, t)
  {
    s.(threads := s.threads[t := Ended],
       holder := match release case None => s.holder case Some(id) => s.holder - {id})
  }

  function Begin(s: State, id: string, thread: Thread): State {
    s.(threads := s.threads + [thread], holder := s.holder[id := |s.threads|])
  }

  /** `exchange` once the authority is known: the id is drawn, and a proposal that passes the checks goes on. */
  function StartExchange(s: State, r: Result<Grant, Error>, p: Proposal, id: string): State {
    var key := if p.idempotencyKey.Some? && p.idempotencyKey.value != ""
               then Some(p.agentId + ":" + p.idempotencyKey.value) else None;
    var drawn := s.(issued := s.issued + {id});
    if r.Ok? then drawn.(threads := s.threads + [Creating(r.value, key)]) else drawn
  }

  /** `createExchangeGrant` and what `exchange` does with its answer before it awaits the signer. */
  function CreateGrant(s: State, t: nat): State
    requires ThreadAt(s, t) && s.threads[t].Creating?
  {
    var g, key := s.threads[t].grant, s.threads[t].key;
    if key.Some? && key.value in s.idempotency && s.idempotency[key.value] in s.grants then End(s, t, None)
    else if g.status.Approved? && g.subjectTokenId in s.owner && s.owner[g.subjectTokenId] != "" &&
            s.owner[g.subjectTokenId] != g.id
    then End(s, t, None)
    else
      var stored := s.(
        owner := if g.status.Approved? then s.owner[g.subjectTokenId := g.id] else s.owner,
        grants := s.grants[g.id := g],
        idempotency := if key.Some? then s.idempotency[key.value := g.id] else s.idempotency);
      if g.status.Approved? then stored.(threads := s.threads[t := Signing(g.id, false)]) else End(stored, t, None)
  }

  function ReserveToken(s: State, t: nat): State
    requires ThreadAt(s, t) && s.threads[t].Reserving? && s.threads[t].id in s.grants
  {
    var id := s.threads[t].id;
    var token := s.grants[id].subjectTokenId;
    if token in s.owner && s.owner[token] != "" && s.owner[token] != id then End(s, t, Some(id))
    else s.(owner := s.owner[token := id], threads := s.threads[t := Reserved(id, s.threads[t].approver)])
  }

  function ProveUse(s: State, t: nat): State
    requires ThreadAt(s, t) && s.threads[t].Proving? && s.threads[t].id in s.grants
  {
    var Proving(id, claims, proof, startedAt) := s.threads[t];
    var thumbprint := s.grants[id].dpopThumbprint;
    var after := s.(seen := Dpop.SeenAfter(s.seen, proof, thumbprint, startedAt));
    if Dpop.Verdict(s.seen, proof, thumbprint, startedAt).None?
    then after.(threads := s.threads[t := Proved(id, claims, startedAt)])
    else End(after, t, Some(id))
  }

  function ConfirmProof(s: State, t: nat): State
    requires ThreadAt(s, t) && s.threads[t].Confirming?
  {
    var Confirming(id, thumbprint, proof, startedAt) := s.threads[t];
    s.(seen := Dpop.SeenAfter(s.seen, proof, thumbprint, startedAt),
       threads := s.threads[t := if Dpop.Verdict(s.seen, proof, thumbprint, startedAt).None? then Confirmed(id) else Ended])
  }

  /** The section of `finalize`, which holds the grant lock from its start to its end. */
  function Close(s: State, id: string, source: Source, status: Status, evidenceId: string): State {
    if id !in s.grants || id in s.evidence || s.grants[id].status.Denied? then s
    else s.(grants := s.grants[id := FinalizedBy(s.grants[id], status, source, s.clock, evidenceId)],
            evidence := s.evidence[id := Proof(evidenceId, source)])
  }

  function Apply(s: State, a: Action): State
    requires Enabled(s, a)
  {
    match a
    case Tick(elapsed) => s.(clock := s.clock + elapsed)
    case Exchange(p, authority, decision, maxTtl, id, reference) =>
      StartExchange(s, Propose(p, authority, decision, maxTtl, id, reference, s.clock), p, id)
    case Create(t) => CreateGrant(s, t)
    case Sign(t, succeeds) =>
      var id := s.threads[t].id;
      var signed := if succeeds && id in s.grants
                    then s.(log := s.log + [Credential(id, Mint(s.grants[id]), s.grants[id].subjectTokenId)]) else s;
      End(signed, t, if s.threads[t].inLock then Some(id) else None)
    case Approve(id, approver) =>
      if id in s.grants && ApproveCheck(s.grants[id], s.clock).None?
      then Begin(s, id, Reserving(id, approver)) else s
    case Reserve(t) => ReserveToken(s, t)
    case Commit(t) =>
      var Reserved(id, approver) := s.threads[t];
      s.(grants := s.grants[id := ApprovedBy(s.grants[id], approver, s.clock)],
         threads := s.threads[t := Signing(id, true)])
    case Consume(input) =>
      var claims := ConsumeClaims(input);
      if claims.Ok? && claims.value.grantId in s.grants &&
         ConsumeCheck(s.grants[claims.value.grantId], claims.value, input, s.clock).None?
      then Begin(s, claims.value.grantId, Proving(claims.value.grantId, claims.value, input.proof.dpop, s.clock)) else s
    case Prove(t) => ProveUse(s, t)
    case Use(t) =>
      var Proved(id, claims, startedAt) := s.threads[t];
      End(s.(grants := s.grants[id := ConsumedAt(s.grants[id], s.clock)],
             log := s.log + [Consumption(id, claims, startedAt)]), t, Some(id))
    case Complete(id, credential, proof, verifiedAt) =>
      if CompletionFits(s, id, credential, proof, verifiedAt)
      then s.(threads := s.threads + [Confirming(id, s.grants[id].dpopThumbprint, proof.dpop, s.clock)]) else s
    case Confirm(t) => ConfirmProof(s, t)
    case Finish(t, evidenceId) => Close(End(s, t, None), s.threads[t].id, Agent, Revoked, evidenceId)
    case Finalize(id, source, status, evidenceId) => Close(s, id, source, status, evidenceId)
    case Sweep => s.(seen := Dpop.Prune(s.seen, s.clock))
  }

  predicate Legal(acts: seq<Action>)
    decreases |acts|, 0
  {
    acts == [] || (Legal(acts[..|acts| - 1]) && Enabled(After(acts[..|acts| - 1]), acts[|acts| - 1]))
  }

  /** The state after a schedule of steps, starting from an empty broker. */
  function After(acts: seq<Action>): State
    requires Legal(acts)
    decreases |acts|, 1
  {
    if acts == [] then Initial else Apply(After(acts[..|acts| - 1]), acts[|acts| - 1])
  }

  // --- the invariant ---

  function LockedBy(thread: Thread): Option<string> {
    match thread
    case Reserving(id, _) => Some(id)
    case Reserved(id, _) => Some(id)
    case Signing(id, inLock) => if inLock then Some(id) else None
    case Proving(id, _, _, _) => Some(id)
    case Proved(id, _, _) => Some(id)
    case _ => None
  }

  ghost predicate LocksAgree(threads: seq<Thread>, holder: map<string, nat>) {
    && (forall t {:trigger threads[t]} :: 0 <= t < |threads| && LockedBy(threads[t]).Some? ==>
          LockedBy(threads[t]).value in holder && holder[LockedBy(threads[t]).value] == t)
    && (forall id {:trigger holder[id]} :: id in holder ==>
          holder[id] < |threads| && LockedBy(threads[holder[id]]) == Some(id))
  }

  ghost predicate Owns(s: State, id: string) {
    && id in s.grants && id != ""
    && s.grants[id].subjectTokenId in s.owner && s.owner[s.grants[id].subjectTokenId] == id
  }

  ghost predicate StatusIs(s: State, id: string, status: Status) {
    id in s.grants && s.grants[id].status == status
  }

  ghost predicate ThreadOk(s: State, thread: Thread) {
    match thread
    case Creating(g, _) =>
      g.id in s.issued && g.id !in s.grants && g.evidenceId.None? &&
      FollowsRow(None, Proposing(g.policyDecision), g.status)
    case Reserving(id, _) => StatusIs(s, id, Proposed)
    case Reserved(id, _) => StatusIs(s, id, Proposed) && Owns(s, id)
    case Signing(id, _) => Owns(s, id) && !s.grants[id].status.Proposed?
    case Proving(id, _, _, startedAt) =>
      StatusIs(s, id, Approved) && startedAt < s.grants[id].expiresAt && startedAt <= s.clock
    case Proved(id, _, startedAt) => StatusIs(s, id, Approved) && startedAt < s.grants[id].expiresAt
    case Confirming(id, _, _, startedAt) => id in s.grants && !s.grants[id].status.Proposed? && startedAt <= s.clock
    case Confirmed(id) => id in s.grants && !s.grants[id].status.Proposed?
    case Ended => true
  }

  ghost predicate GrantOk(s: State, id: string) {
    id in s.grants ==>
      && s.grants[id].id == id && id in s.issued
      && (s.grants[id].status.Approved? || s.grants[id].status.Consumed? ==> Owns(s, id))
      && (id in s.evidence <==> Final(s.grants[id].status))
      && (id in s.evidence ==> s.grants[id].evidenceId == Some(s.evidence[id].id))
  }

  ghost predicate EntryOk(s: State, e: Entry) {
    match e
    case Credential(id, claims, token) =>
      && Owns(s, id) && s.grants[id].subjectTokenId == token && !s.grants[id].status.Proposed?
      && claims == Mint(s.grants[id])
    case Consumption(id, _, startedAt) =>
      && id in s.grants && startedAt < s.grants[id].expiresAt
      && (s.grants[id].status.Consumed? || Final(s.grants[id].status))
  }

  /** No two requests are about to create the same grant or to sign for the same grant. */
  ghost predicate ThreadsDiffer(threads: seq<Thread>) {
    forall t, u {:trigger threads[t], threads[u]} :: 0 <= t < u < |threads| ==> Differ(threads[t], threads[u])
  }

  ghost predicate Differ(a: Thread, b: Thread) {
    && (a.Creating? && b.Creating? ==> a.grant.id != b.grant.id)
    && (a.Signing? && b.Signing? ==> a.id != b.id)
  }

  ghost predicate LogDiffers(log: seq<Entry>) {
    forall j, k {:trigger log[j], log[k]} :: 0 <= j < k < |log| && log[j].Credential? == log[k].Credential? ==>
      log[j].id != log[k].id
  }

  /** What is about to be signed has not been signed. */
  ghost predicate UnsignedYet(threads: seq<Thread>, log: seq<Entry>) {
    forall t, k {:trigger threads[t], log[k]} :: 0 <= t < |threads| && 0 <= k < |log| ==> Unsigned(threads[t], log[k])
  }

  ghost predicate Unsigned(thread: Thread, e: Entry) {
    thread.Signing? && e.Credential? ==> thread.id != e.id
  }

  ghost predicate ThreadsOk(s: State) {
    forall t {:trigger s.threads[t]} :: 0 <= t < |s.threads| ==> ThreadOk(s, s.threads[t])
  }

  ghost predicate GrantsOk(s: State) {
    && (forall id :: GrantOk(s, id))
    && (forall id :: id in s.evidence ==> id in s.grants)
    && (forall token :: token in s.owner ==> s.owner[token] != "")
    && "" !in s.issued
  }

  ghost predicate EntriesOk(s: State) {
    forall k {:trigger s.log[k]} :: 0 <= k < |s.log| ==> EntryOk(s, s.log[k])
  }

  ghost predicate Inv(s: State) {
    && LocksAgree(s.threads, s.holder) && ThreadsDiffer(s.threads) && LogDiffers(s.log) && UnsignedYet(s.threads, s.log)
    && ThreadsOk(s) && GrantsOk(s) && EntriesOk(s)
  }

  // --- what every step does to the records it does not own ---

  /** Identity, token, deadline and credential of a grant never change, owners are write-once, statuses follow the table. */
  ghost predicate Advances(s: State, s': State) {
    && s.issued <= s'.issued && s.clock <= s'.clock
    && (forall id {:trigger s.grants[id]} :: id in s.grants ==> id in s'.grants && GrantAdvances(s.grants[id], s'.grants[id]))
    && (forall token :: token in s.owner ==> token in s'.owner && s'.owner[token] == s.owner[token])
    && (forall id :: id in s.evidence ==> id in s'.evidence && s'.evidence[id] == s.evidence[id])
  }

  ghost predicate GrantAdvances(g: Grant, g': Grant) {
    && g'.id == g.id && g'.subjectTokenId == g.subjectTokenId && g'.expiresAt == g.expiresAt && Mint(g') == Mint(g)
    && (g'.status == g.status || LegalEdge(Some(g.status), g'.status))
  }

  // --- the parts of the invariant, carried over a step ---

  lemma EntriesStayOk(s: State, s': State)
    requires EntriesOk(s) && Advances(s, s')
    requires s.log <= s'.log
    requires forall k :: |s.log| <= k < |s'.log| ==> EntryOk(s', s'.log[k])
    ensures EntriesOk(s')
  {
    hide EntryOk, Advances;
    forall k | 0 <= k < |s'.log| ensures EntryOk(s', s'.log[k]) {
      if k < |s.log| {
        EntryStaysOk(s, s', s.log[k]);
      }
    }
  }

  lemma EntryStaysOk(s: State, s': State, e: Entry)
    requires EntryOk(s, e) && Advances(s, s')
    ensures EntryOk(s', e)
  {
    hide Mint;
  }

  lemma LocksOfMove(threads: seq<Thread>, holder: map<string, nat>, t: nat, thread: Thread)
    requires LocksAgree(threads, holder) && t < |threads|
    requires LockedBy(thread) == LockedBy(threads[t])
    ensures LocksAgree(threads[t := thread], holder)
  {
  }

  lemma LocksOfEnd(threads: seq<Thread>, holder: map<string, nat>, t: nat)
    requires LocksAgree(threads, holder) && t < |threads|
    ensures match LockedBy(threads[t])
            case None => LocksAgree(threads[t := Ended], holder)
            case Some(id) => LocksAgree(threads[t := Ended], holder - {id})
  {
  }

  lemma LocksOfBegin(threads: seq<Thread>, holder: map<string, nat>, thread: Thread)
    requires LocksAgree(threads, holder)
    requires LockedBy(thread).Some? ==> LockedBy(thread).value !in holder
    ensures match LockedBy(thread)
            case None => LocksAgree(threads + [thread], holder)
            case Some(id) => LocksAgree(threads + [thread], holder[id := |threads|])
  {
    var threads' := threads + [thread];
    assert forall t :: 0 <= t < |threads| ==> threads'[t] == threads[t];
  }

  lemma DifferOfMove(threads: seq<Thread>, log: seq<Entry>, t: nat, thread: Thread)
    requires t < |threads| && ThreadsDiffer(threads) && UnsignedYet(threads, log)
    requires !thread.Creating?
    requires thread.Signing? ==> forall u :: 0 <= u < |threads| && threads[u].Signing? ==> threads[u].id != thread.id
    requires thread.Signing? ==> forall k :: 0 <= k < |log| ==> log[k].id != thread.id
    ensures ThreadsDiffer(threads[t := thread]) && UnsignedYet(threads[t := thread], log)
  {
  }

  lemma DifferOfBegin(threads: seq<Thread>, log: seq<Entry>, thread: Thread)
    requires ThreadsDiffer(threads) && UnsignedYet(threads, log) && !thread.Signing?
    requires thread.Creating? ==>
               forall u :: 0 <= u < |threads| && threads[u].Creating? ==> threads[u].grant.id != thread.grant.id
    ensures ThreadsDiffer(threads + [thread]) && UnsignedYet(threads + [thread], log)
  {
  }

  lemma DifferOfSigned(threads: seq<Thread>, log: seq<Entry>, t: nat, e: Entry)
    requires t < |threads| && threads[t].Signing? && e.Credential? && e.id == threads[t].id
    requires ThreadsDiffer(threads) && UnsignedYet(threads, log) && LogDiffers(log)
    ensures LogDiffers(log + [e]) && UnsignedYet(threads[t := Ended], log + [e])
  {
  }

  /** Requests other than `t` keep what they know: nothing they lock is touched. */
  lemma OthersStayOk(s: State, s': State, t: nat, touched: Option<string>)
    requires ThreadsOk(s) && Advances(s, s') && LocksAgree(s.threads, s.holder) && ThreadsDiffer(s.threads)
    requires |s.threads| == |s'.threads| && (forall u :: 0 <= u < |s.threads| && u != t ==> s'.threads[u] == s.threads[u])
    requires t < |s.threads| ==> ThreadOk(s', s'.threads[t])
    requires forall id :: id in s.grants && Some(id) != touched ==> s'.grants[id] == s.grants[id]
    requires touched.Some? && touched.value in s.grants ==>
               touched.value !in s.holder || s.holder[touched.value] == t
    requires forall id :: id in s'.grants && id !in s.grants ==>
               t < |s.threads| && s.threads[t].Creating? && s.threads[t].grant.id == id
    ensures ThreadsOk(s')
  {
    hide FollowsRow, Mint;
    forall u | 0 <= u < |s'.threads| ensures ThreadOk(s', s'.threads[u]) {
      if u != t {
        assert ThreadOk(s, s.threads[u]);
        if s.threads[u].Creating? {
          if t < |s.threads| && s.threads[t].Creating? {
            assert Differ(s.threads[u], s.threads[t]) || Differ(s.threads[t], s.threads[u]);
          }
        } else {
          OtherStaysOk(s, s', s.threads[u]);
        }
      }
    }
  }

  /** A request under way keeps what it knows when the grant it has locked does not change. */
  lemma OtherStaysOk(s: State, s': State, thread: Thread)
    requires Advances(s, s') && ThreadOk(s, thread) && !thread.Creating?
    requires LockedBy(thread).Some? && LockedBy(thread).value in s.grants ==>
               s'.grants[LockedBy(thread).value] == s.grants[LockedBy(thread).value]
    ensures ThreadOk(s', thread)
  {
  }

  /** A request moves to its next point, keeping its lock, without adding to the log. */
  lemma MoveKeepsInv(s: State, s': State, t: nat, touched: Option<string>)
    requires Inv(s) && Advances(s, s') && GrantsOk(s') && ThreadAt(s, t)
    requires |s'.threads| == |s.threads| && s'.threads == s.threads[t := s'.threads[t]]
    requires s'.log == s.log && s'.holder == s.holder
    requires LockedBy(s'.threads[t]) == LockedBy(s.threads[t])
    requires ThreadOk(s', s'.threads[t]) && !s'.threads[t].Creating?
    requires forall id :: id in s.grants && Some(id) != touched ==> s'.grants[id] == s.grants[id]
    requires touched.Some? && touched.value in s.grants ==> touched.value in s.holder && s.holder[touched.value] == t
    requires forall id :: id in s'.grants && id !in s.grants ==> s.threads[t].Creating? && s.threads[t].grant.id == id
    requires s'.threads[t].Signing? ==> NeverSigned(s, s'.threads[t].id)
    ensures Inv(s')
  {
    hide FollowsRow, Mint, LegalEdge;
    OthersStayOk(s, s', t, touched);
    EntriesStayOk(s, s');
    LocksOfMove(s.threads, s.holder, t, s'.threads[t]);
    DifferOfMove(s.threads, s.log, t, s'.threads[t]);
  }

  /** A request ends and gives back its lock, perhaps logging that it consumed. */
  lemma EndKeepsInv(s: State, s': State, t: nat, touched: Option<string>)
    requires Inv(s) && Advances(s, s') && GrantsOk(s') && ThreadAt(s, t)
    requires s'.threads == s.threads[t := Ended]
    requires s'.holder == match LockedBy(s.threads[t]) case None => s.holder case Some(id) => s.holder - {id}
    requires s.log <= s'.log && LogDiffers(s'.log) && UnsignedYet(s'.threads, s'.log)
    requires forall k :: |s.log| <= k < |s'.log| ==> EntryOk(s', s'.log[k])
    requires forall id :: id in s.grants && Some(id) != touched ==> s'.grants[id] == s.grants[id]
    requires touched.Some? && touched.value in s.grants ==> touched.value in s.holder && s.holder[touched.value] == t
    requires forall id :: id in s'.grants && id !in s.grants ==> s.threads[t].Creating? && s.threads[t].grant.id == id
    ensures Inv(s')
  {
    hide FollowsRow, Mint, LegalEdge;
    OthersStayOk(s, s', t, touched);
    EntriesStayOk(s, s');
    LocksOfEnd(s.threads, s.holder, t);
    DifferOfMove(s.threads, s.log, t, Ended);
  }

  ghost predicate NeverSigned(s: State, id: string) {
    && (forall u :: 0 <= u < |s.threads| && s.threads[u].Signing? ==> s.threads[u].id != id)
    && (forall k :: 0 <= k < |s.log| ==> s.log[k].id != id)
  }

  /** Nothing signs, or has signed, for a grant that is absent or still proposed. */
  lemma UnapprovedNeverSigned(s: State, id: string)
    requires Inv(s) && (id in s.grants ==> s.grants[id].status.Proposed?)
    ensures NeverSigned(s, id)
  {
    hide GrantsOk, LocksAgree, ThreadsDiffer, LogDiffers, UnsignedYet, Mint, FollowsRow;
    forall u | 0 <= u < |s.threads| && s.threads[u].Signing? ensures s.threads[u].id != id {
      assert ThreadOk(s, s.threads[u]);
    }
    forall k | 0 <= k < |s.log| ensures s.log[k].id != id { assert EntryOk(s, s.log[k]); }
  }

  /** One grant changes within the table, everything else about the records stays. */
  lemma GrantChanges(s: State, s': State, id: string)
    requires Inv(s) && s.issued == s'.issued && s.clock <= s'.clock && s.owner == s'.owner
    requires id in s.grants && id in s'.grants && s'.grants == s.grants[id := s'.grants[id]]
    requires GrantAdvances(s.grants[id], s'.grants[id]) && GrantOk(s', id)
    requires s'.evidence == s.evidence || (id !in s.evidence && id in s'.evidence && s'.evidence == s.evidence[id := s'.evidence[id]])
    ensures GrantsOk(s') && Advances(s, s')
  {
    hide ThreadsOk, EntriesOk, LocksAgree, ThreadsDiffer, LogDiffers, UnsignedYet, Mint, LegalEdge;
    forall i ensures GrantOk(s', i) { assert GrantOk(s, i); }
  }

  /** The grants stay, and so does everything said of them. */
  lemma GrantsUnchanged(s: State, s': State)
    requires Inv(s) && s'.grants == s.grants && s'.issued == s.issued && s'.owner == s.owner && s'.evidence == s.evidence
    requires s.clock <= s'.clock
    ensures GrantsOk(s') && Advances(s, s')
  {
    hide ThreadsOk, EntriesOk, LocksAgree, ThreadsDiffer, LogDiffers, UnsignedYet, Mint, LegalEdge;
    forall i ensures GrantOk(s', i) { assert GrantOk(s, i); }
  }

  /** What a request under way knows, and that it holds the lock it claims to. */
  lemma RequestFacts(s: State, t: nat)
    requires Inv(s) && ThreadAt(s, t)
    ensures ThreadOk(s, s.threads[t])
    ensures LockedBy(s.threads[t]).Some? ==>
              LockedBy(s.threads[t]).value in s.holder && s.holder[LockedBy(s.threads[t]).value] == t
  {
    hide GrantsOk, EntriesOk, ThreadsDiffer, LogDiffers, UnsignedYet, ThreadOk;
  }

  lemma GrantFacts(s: State, id: string)
    requires Inv(s)
    ensures GrantOk(s, id)
  {
  }

  // --- one lemma for every kind of step ---

  lemma ExchangeKeepsInv(s: State, a: Action)
    requires Inv(s) && Enabled(s, a) && a.Exchange?
    ensures Inv(Apply(s, a)) && Advances(s, Apply(s, a))
  {
    var drawn := s.(issued := s.issued + {a.id});
    DrawKeepsInv(s, a.id);
    var s' := Apply(s, a);
    if s' != drawn {
      ProposedThread(s, s'.threads[|s.threads|], a.id);
    }
  }

  lemma DrawKeepsInv(s: State, id: string)
    requires Inv(s) && id != ""
    ensures
      var drawn := s.(issued := s.issued + {id});
      Inv(drawn) && Advances(s, drawn)
  {
    var drawn := s.(issued := s.issued + {id});
    forall i ensures GrantOk(drawn, i) { assert GrantOk(s, i); }
    NothingMoves(s, drawn);
  }

  lemma ProposedThread(s: State, thread: Thread, id: string)
    requires Inv(s) && id !in s.issued && id != ""
    requires Inv(s.(issued := s.issued + {id})) && Advances(s, s.(issued := s.issued + {id}))
    requires thread.Creating? && thread.grant.id == id && thread.grant.evidenceId.None?
    requires FollowsRow(None, Proposing(thread.grant.policyDecision), thread.grant.status)
    ensures
      var s' := s.(issued := s.issued + {id}, threads := s.threads + [thread]);
      Inv(s') && Advances(s, s')
  {
    var drawn := s.(issued := s.issued + {id});
    var s' := drawn.(threads := s.threads + [thread]);
    assert GrantOk(s, id);
    forall u | 0 <= u < |s.threads| && s.threads[u].Creating? ensures s.threads[u].grant.id != id {
      assert ThreadOk(s, s.threads[u]);
    }
    forall i ensures GrantOk(s', i) { assert GrantOk(drawn, i); }
    BeginAddsThread(drawn, s', thread);
  }

  /** Nothing moves; the log, the threads and the grants stay. */
  lemma NothingMoves(s: State, s': State)
    requires Inv(s) && Advances(s, s') && GrantsOk(s')
    requires s'.threads == s.threads && s'.holder == s.holder && s'.log == s.log && s'.grants == s.grants
    ensures Inv(s')
  {
    OthersStayOk(s, s', |s.threads|, None);
    EntriesStayOk(s, s');
  }

  lemma BeginAddsThread(s: State, s': State, thread: Thread)
    requires Inv(s) && Advances(s, s') && GrantsOk(s')
    requires s'.threads == s.threads + [thread] && s'.log == s.log && s'.grants == s.grants
    requires LockedBy(thread).Some? ==> LockedBy(thread).value !in s.holder
    requires s'.holder == match LockedBy(thread) case None => s.holder case Some(id) => s.holder[id := |s.threads|]
    requires ThreadOk(s', thread) && !thread.Signing?
    requires thread.Creating? ==>
               forall u :: 0 <= u < |s.threads| && s.threads[u].Creating? ==> s.threads[u].grant.id != thread.grant.id
    ensures Inv(s')
  {
    hide FollowsRow, Mint, LegalEdge, GrantsOk, ThreadsOk, LocksAgree, ThreadsDiffer, LogDiffers, UnsignedYet, ThreadOk;
    ThreadsOfBegin(s, s', thread);
    assert EntriesOk(s') by { hide Advances; EntriesStayOk(s, s'); }
    LocksOfBegin(s.threads, s.holder, thread);
    DifferOfBegin(s.threads, s.log, thread);
  }

  lemma ThreadsOfBegin(s: State, s': State, thread: Thread)
    requires ThreadsOk(s) && LocksAgree(s.threads, s.holder) && ThreadsDiffer(s.threads)
    requires Advances(s, s') && s'.threads == s.threads + [thread] && s'.grants == s.grants && ThreadOk(s', thread)
    ensures ThreadsOk(s')
  {
    hide LocksAgree, ThreadsDiffer, FollowsRow;
    var mid := s'.(threads := s.threads);
    OthersStayOk(s, mid, |s.threads|, None);
    forall t | 0 <= t < |s'.threads| ensures ThreadOk(s', s'.threads[t]) {
      if t < |s.threads| {
        assert ThreadOk(mid, mid.threads[t]);
      }
    }
  }

  lemma CreateKeepsInv(s: State, t: nat)
    requires Inv(s) && Enabled(s, Create(t))
    ensures Inv(Apply(s, Create(t))) && Advances(s, Apply(s, Create(t)))
  {
    var s' := Apply(s, Create(t));
    var g := s.threads[t].grant;
    assert ThreadOk(s, s.threads[t]);
    if g.id in s'.grants {
      CreateStores(s, s', t);
    } else {
      assert s' == End(s, t, None);
      EndAlone(s, t);
    }
  }

  /** A request gives up without having changed a record. */
  lemma EndAlone(s: State, t: nat)
    requires Inv(s) && ThreadAt(s, t)
    ensures Inv(End(s, t, LockedBy(s.threads[t]))) && Advances(s, End(s, t, LockedBy(s.threads[t])))
  {
    hide FollowsRow, Mint, LegalEdge;
    var s' := End(s, t, LockedBy(s.threads[t]));
    forall id ensures GrantOk(s', id) { assert GrantOk(s, id); }
    DifferOfMove(s.threads, s.log, t, Ended);
    EndKeepsInv(s, s', t, None);
  }

  /** A free token gets its owner. */
  lemma OwnerGrows(s: State, s': State, token: string, id: string)
    requires Inv(s) && id != "" && (token in s.owner ==> s.owner[token] == id)
    requires s' == s.(owner := s.owner[token := id])
    ensures Inv(s') && Advances(s, s')
  {
    forall i ensures GrantOk(s', i) {
      assert GrantOk(s, i);
      assert Owns(s, i) ==> Owns(s', i);
    }
    NothingMoves(s, s');
  }

  lemma CreateStores(s: State, s': State, t: nat)
    requires Inv(s) && Enabled(s, Create(t)) && s' == CreateGrant(s, t)
    requires s.threads[t].grant.id !in s.grants && s.threads[t].grant.id in s'.grants
    ensures Inv(s') && Advances(s, s')
  {
    hide Inv, ThreadOk, Advances, LegalEdge;
    var g := s.threads[t].grant;
    var owned := s.(owner := s'.owner);
    CreatingFacts(s, owned, t);
    if g.status.Approved? {
      OwnerGrows(s, owned, g.subjectTokenId, g.id);
      GrantInserted(owned, s', t);
      AdvancesAdd(s, owned, s');
    } else {
      GrantInserted(s, s', t);
    }
  }

  /** A request about to create has a new id, and an owned token has a named owner. */
  lemma CreatingFacts(s: State, owned: State, t: nat)
    requires Inv(s) && ThreadAt(s, t) && s.threads[t].Creating? && owned == s.(owner := owned.owner)
    ensures s.threads[t].grant.id != "" && ThreadOk(s, s.threads[t]) && ThreadOk(owned, s.threads[t])
    ensures forall token :: token in s.owner ==> s.owner[token] != ""
  {
    hide GrantOk;
  }

  lemma AdvancesAdd(a: State, b: State, c: State)
    requires Advances(a, b) && Advances(b, c) && a.grants == b.grants
    ensures Advances(a, c)
  {
    hide GrantAdvances;
  }

  lemma GrantInserted(s: State, s': State, t: nat)
    requires Inv(s) && ThreadAt(s, t) && s.threads[t].Creating? && ThreadOk(s, s.threads[t])
    requires var g := s.threads[t].grant;
      && (g.status.Approved? ==> g.subjectTokenId in s.owner && s.owner[g.subjectTokenId] == g.id)
      && s' == s.(grants := s.grants[g.id := g], idempotency := s'.idempotency,
                  threads := s.threads[t := if g.status.Approved? then Signing(g.id, false) else Ended])
    ensures Inv(s') && Advances(s, s')
  {
    hide Inv, Advances, GrantsOk, NeverSigned, LogDiffers, UnsignedYet;
    var g := s.threads[t].grant;
    InsertedGrants(s, s', g);
    if g.status.Approved? {
      UnapprovedNeverSigned(s, g.id);
      OwnerNamed(s, g.subjectTokenId);
      MoveKeepsInv(s, s', t, Some(g.id));
    } else {
      EndDiffers(s, t);
      EndKeepsInv(s, s', t, Some(g.id));
    }
  }

  lemma EndDiffers(s: State, t: nat)
    requires Inv(s) && ThreadAt(s, t)
    ensures LogDiffers(s.log) && UnsignedYet(s.threads[t := Ended], s.log)
  {
    hide ThreadsOk, GrantsOk, EntriesOk, LocksAgree;
    DifferOfMove(s.threads, s.log, t, Ended);
  }

  /** A new grant among the others. */
  lemma InsertedGrants(s: State, s': State, g: Grant)
    requires Inv(s) && g.id !in s.grants && g.id in s.issued && g.evidenceId.None?
    requires FollowsRow(None, Proposing(g.policyDecision), g.status)
    requires g.status.Approved? ==> g.subjectTokenId in s.owner && s.owner[g.subjectTokenId] == g.id
    requires s' == s.(grants := s.grants[g.id := g], idempotency := s'.idempotency, threads := s'.threads)
    ensures GrantsOk(s') && Advances(s, s')
  {
    hide ThreadsOk, EntriesOk, LocksAgree, ThreadsDiffer, LogDiffers, UnsignedYet, Mint, LegalEdge;
    assert GrantOk(s', g.id) by { assert g.id !in s.evidence; }
    forall id ensures GrantOk(s', id) { assert GrantOk(s, id); }
  }

  lemma SignKeepsInv(s: State, t: nat, succeeds: bool)
    requires Inv(s) && Enabled(s, Sign(t, succeeds))
    ensures Inv(Apply(s, Sign(t, succeeds))) && Advances(s, Apply(s, Sign(t, succeeds)))
  {
    hide Inv, Advances;
    if succeeds && s.threads[t].id in s.grants {
      SignedKeepsInv(s, Apply(s, Sign(t, succeeds)), t);
    } else {
      EndAlone(s, t);
    }
  }

  lemma SignedKeepsInv(s: State, s': State, t: nat)
    requires Inv(s) && ThreadAt(s, t) && s.threads[t].Signing? && s.threads[t].id in s.grants
    requires
      var id := s.threads[t].id;
      s' == End(s.(log := s.log + [Credential(id, Mint(s.grants[id]), s.grants[id].subjectTokenId)]), t,
                LockedBy(s.threads[t]))
    ensures Inv(s') && Advances(s, s')
  {
    hide FollowsRow, Mint, LegalEdge;
    assert ThreadOk(s, s.threads[t]);
    forall id ensures GrantOk(s', id) { assert GrantOk(s, id); }
    DifferOfSigned(s.threads, s.log, t, s'.log[|s.log|]);
    EndKeepsInv(s, s', t, None);
  }

  lemma BeginKeepsInv(s: State, id: string, thread: Thread)
    requires Inv(s) && id !in s.holder && LockedBy(thread) == Some(id)
    requires ThreadOk(s, thread) && !thread.Signing?
    ensures Inv(Begin(s, id, thread)) && Advances(s, Begin(s, id, thread))
  {
    hide FollowsRow, Mint, LegalEdge;
    var s' := Begin(s, id, thread);
    forall i ensures GrantOk(s', i) { assert GrantOk(s, i); }
    BeginAddsThread(s, s', thread);
  }

  lemma ReserveKeepsInv(s: State, t: nat)
    requires Inv(s) && Enabled(s, Reserve(t))
    ensures Inv(Apply(s, Reserve(t))) && Advances(s, Apply(s, Reserve(t)))
  {
    var s' := Apply(s, Reserve(t));
    if s'.threads[t].Reserved? {
      ReserveSucceeds(s, s', t);
    } else {
      EndAlone(s, t);
    }
  }

  lemma ReserveSucceeds(s: State, s': State, t: nat)
    requires Inv(s) && Enabled(s, Reserve(t)) && s' == ReserveToken(s, t) && s'.threads[t].Reserved?
    ensures Inv(s') && Advances(s, s')
  {
    hide Inv, Advances, FollowsRow, Mint, LegalEdge;
    var id := s.threads[t].id;
    RequestFacts(s, t);
    GrantFacts(s, id);
    var owned := s.(owner := s'.owner);
    OwnerNamed(s, s.grants[id].subjectTokenId);
    OwnerGrows(s, owned, s.grants[id].subjectTokenId, id);
    ReservedMoves(owned, s', t);
    AdvancesAdd(s, owned, s');
  }

  lemma OwnerNamed(s: State, token: string)
    requires Inv(s)
    ensures (token in s.owner ==> s.owner[token] != "") && "" !in s.issued
  {
  }

  lemma ReservedMoves(s: State, s': State, t: nat)
    requires Inv(s) && ThreadAt(s, t) && s.threads[t].Reserving? && Owns(s, s.threads[t].id)
    requires s' == s.(threads := s.threads[t := Reserved(s.threads[t].id, s.threads[t].approver)])
    ensures Inv(s') && Advances(s, s')
  {
    hide Inv, Advances, GrantsOk, FollowsRow, Mint, LegalEdge;
    RequestFacts(s, t);
    GrantsUnchanged(s, s');
    MoveKeepsInv(s, s', t, None);
  }

  lemma CommitKeepsInv(s: State, t: nat)
    requires Inv(s) && Enabled(s, Commit(t))
    ensures Inv(Apply(s, Commit(t))) && Advances(s, Apply(s, Commit(t)))
  {
    hide Inv, Advances, GrantsOk, NeverSigned, FollowsRow;
    var s' := Apply(s, Commit(t));
    var id := s.threads[t].id;
    RequestFacts(s, t);
    GrantFacts(s, id);
    GrantChanges(s, s', id);
    UnapprovedNeverSigned(s, id);
    MoveKeepsInv(s, s', t, Some(id));
  }

  lemma ProveKeepsInv(s: State, t: nat)
    requires Inv(s) && Enabled(s, Prove(t))
    ensures Inv(Apply(s, Prove(t))) && Advances(s, Apply(s, Prove(t)))
  {
    hide Inv, Advances, Dpop.SeenAfter, Dpop.Verdict;
    var Proving(id, claims, proof, startedAt) := s.threads[t];
    var after := s.(seen := Dpop.SeenAfter(s.seen, proof, s.grants[id].dpopThumbprint, startedAt));
    SameRecords(s, after);
    if Apply(s, Prove(t)).threads[t].Proved? {
      ProvedMoves(after, t);
    } else {
      EndAlone(after, t);
    }
    AdvancesAdd(s, after, Apply(s, Prove(t)));
  }

  lemma ProvedMoves(s: State, t: nat)
    requires Inv(s) && ThreadAt(s, t) && s.threads[t].Proving?
    ensures
      var s' := s.(threads := s.threads[t := Proved(s.threads[t].id, s.threads[t].claims, s.threads[t].startedAt)]);
      Inv(s') && Advances(s, s')
  {
    hide Inv, Advances, GrantsOk, FollowsRow, Mint, LegalEdge;
    var s' := s.(threads := s.threads[t := Proved(s.threads[t].id, s.threads[t].claims, s.threads[t].startedAt)]);
    RequestFacts(s, t);
    GrantsUnchanged(s, s');
    MoveKeepsInv(s, s', t, None);
  }

  lemma UseKeepsInv(s: State, t: nat)
    requires Inv(s) && Enabled(s, Use(t))
    ensures Inv(Apply(s, Use(t))) && Advances(s, Apply(s, Use(t)))
  {
    hide Inv, Advances, GrantsOk, LogDiffers, UnsignedYet, FollowsRow;
    var s' := Apply(s, Use(t));
    var id := s.threads[t].id;
    RequestFacts(s, t);
    GrantFacts(s, id);
    GrantChanges(s, s', id);
    ConsumptionLogged(s, t, s'.log[|s.log|]);
    EndKeepsInv(s, s', t, Some(id));
  }

  /** An approved grant has no consumption in the log yet. */
  lemma ConsumptionLogged(s: State, t: nat, e: Entry)
    requires Inv(s) && ThreadAt(s, t) && e.Consumption? && StatusIs(s, e.id, Approved)
    ensures LogDiffers(s.log + [e]) && UnsignedYet(s.threads[t := Ended], s.log + [e])
  {
    hide FollowsRow, Mint;
    DifferOfMove(s.threads, s.log, t, Ended);
    forall k | 0 <= k < |s.log| && s.log[k].Consumption? ensures s.log[k].id != e.id { assert EntryOk(s, s.log[k]); }
  }

  lemma CloseKeepsInv(s: State, id: string, source: Source, status: Status, evidenceId: string)
    requires Inv(s) && id !in s.holder && Final(status)
    ensures Inv(Close(s, id, source, status, evidenceId)) && Advances(s, Close(s, id, source, status, evidenceId))
  {
    hide FollowsRow;
    var s' := Close(s, id, source, status, evidenceId);
    assert GrantOk(s, id);
    if s' != s {
      GrantChanges(s, s', id);
      OthersStayOk(s, s', |s.threads|, Some(id));
      EntriesStayOk(s, s');
    }
  }

  lemma CompleteKeepsInv(s: State, a: Action)
    requires Inv(s) && Enabled(s, a) && a.Complete?
    ensures Inv(Apply(s, a)) && Advances(s, Apply(s, a))
  {
    hide CompleteCheck;
    var s' := Apply(s, a);
    if s' != s {
      PresentedIsApproved(s, a);
      forall i ensures GrantOk(s', i) { assert GrantOk(s, i); }
      BeginAddsThread(s, s', s'.threads[|s.threads|]);
    }
  }

  /** A credential has been minted for a grant only after the approval of it. */
  lemma PresentedIsApproved(s: State, a: Action)
    requires Inv(s) && Enabled(s, a) && a.Complete? && CompletionFits(s, a.id, a.credential, a.proof, a.verifiedAt)
    ensures !s.grants[a.id].status.Proposed?
  {
    hide CompleteCheck;
    var k :| 0 <= k < |s.log| && s.log[k].Credential? && s.log[k].claims == a.credential.claims;
    assert EntryOk(s, s.log[k]);
    assert GrantOk(s, s.log[k].id);
  }

  lemma ConfirmKeepsInv(s: State, t: nat)
    requires Inv(s) && Enabled(s, Confirm(t))
    ensures Inv(Apply(s, Confirm(t))) && Advances(s, Apply(s, Confirm(t)))
  {
    hide Inv, Advances, Dpop.SeenAfter, Dpop.Verdict;
    var s' := Apply(s, Confirm(t));
    var after := s.(seen := s'.seen);
    SameRecords(s, after);
    if s'.threads[t].Confirmed? {
      ConfirmedMoves(after, t);
    } else {
      EndAlone(after, t);
    }
    AdvancesAdd(s, after, s');
  }

  lemma ConfirmedMoves(s: State, t: nat)
    requires Inv(s) && ThreadAt(s, t) && s.threads[t].Confirming?
    ensures
      var s' := s.(threads := s.threads[t := Confirmed(s.threads[t].id)]);
      Inv(s') && Advances(s, s')
  {
    hide Inv, Advances, GrantsOk, FollowsRow, Mint, LegalEdge;
    var s' := s.(threads := s.threads[t := Confirmed(s.threads[t].id)]);
    RequestFacts(s, t);
    GrantsUnchanged(s, s');
    MoveKeepsInv(s, s', t, None);
  }

  lemma FinishKeepsInv(s: State, t: nat, evidenceId: string)
    requires Inv(s) && Enabled(s, Finish(t, evidenceId))
    ensures Inv(Apply(s, Finish(t, evidenceId))) && Advances(s, Apply(s, Finish(t, evidenceId)))
  {
    hide Inv, Advances, Close;
    var ended := End(s, t, None);
    EndAlone(s, t);
    CloseKeepsInv(ended, s.threads[t].id, Agent, Revoked, evidenceId);
    AdvancesAdd(s, ended, Close(ended, s.threads[t].id, Agent, Revoked, evidenceId));
  }

  lemma StepKeepsInv(s: State, a: Action)
    requires Inv(s) && Enabled(s, a)
    ensures Inv(Apply(s, a)) && Advances(s, Apply(s, a))
  {
    match a
    case Tick(_) => SameRecords(s, Apply(s, a));
    case Sweep => SameRecords(s, Apply(s, a));
    case Exchange(_, _, _, _, _, _) => ExchangeKeepsInv(s, a);
    case Create(t) => CreateKeepsInv(s, t);
    case Sign(t, succeeds) => SignKeepsInv(s, t, succeeds);
    case Approve(id, approver) =>
      if Apply(s, a) != s { BeginKeepsInv(s, id, Reserving(id, approver)); }
    case Reserve(t) => ReserveKeepsInv(s, t);
    case Commit(t) => CommitKeepsInv(s, t);
    case Consume(input) =>
      if Apply(s, a) != s {
        var id := ConsumeClaims(input).value.grantId;
        BeginKeepsInv(s, id, Proving(id, ConsumeClaims(input).value, input.proof.dpop, s.clock));
      }
    case Prove(t) => ProveKeepsInv(s, t);
    case Use(t) => UseKeepsInv(s, t);
    case Complete(_, _, _, _) => CompleteKeepsInv(s, a);
    case Confirm(t) => ConfirmKeepsInv(s, t);
    case Finish(t, evidenceId) => FinishKeepsInv(s, t, evidenceId);
    case Finalize(id, source, status, evidenceId) => CloseKeepsInv(s, id, source, status, evidenceId);
  }

  lemma SameRecords(s: State, s': State)
    requires Inv(s) && s.clock <= s'.clock && s' == s.(clock := s'.clock, seen := s'.seen)
    ensures Inv(s') && Advances(s, s')
  {
    hide FollowsRow, Mint, LegalEdge;
    forall i ensures GrantOk(s', i) { assert GrantOk(s, i); }
    NothingMoves(s, s');
  }

  lemma {:induction false} Reachable(acts: seq<Action>)
    requires Legal(acts)
    ensures Inv(After(acts))
  {
    if acts != [] {
      Reachable(acts[..|acts| - 1]);
      StepKeepsInv(After(acts[..|acts| - 1]), acts[|acts| - 1]);
    }
  }
}
