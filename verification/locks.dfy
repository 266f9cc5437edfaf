/**
  The promise-chain lock of the broker store (packages/broker/src/store.ts:240-257).

  A call of `withLock` captures the lock promise stored under its key, stores a new one in its
  place, waits for the captured promise, runs its operation and then opens its own gate, deleting
  the map entry if it is still the last caller.  Here every call is an `Op`, numbered in the order
  in which the calls were made; `tail` is the lock map.  The promise an op stores is resolved once
  the captured one is resolved and its own gate is open.
 */
module Locks {
  import opened Wrappers

  datatype LockKey = ExchangeKey | GrantKey(id: string) | SubjectKey(id: string)

  datatype Phase = Waiting | Running | Done

  /** `parent` is the op inside whose operation this op was requested, if there is one. */
  datatype Op = Op(key: LockKey, previous: Option<nat>, parent: Option<nat>, phase: Phase)

  datatype Table = Table(ops: seq<Op>, tail: map<LockKey, nat>)

  datatype Action =
    | Enter(key: LockKey, parent: Option<nat>)
    | Start(op: nat)
    | Finish(op: nat, threw: bool)

  const Empty := Table([], map[])

  // --- lock keys as the strings of the source ---

  function Render(key: LockKey): string {
    match key
    case ExchangeKey => "exchange"
    case GrantKey(id) => "grant:" + id
    case SubjectKey(id) => "subject:" + id
  }

  lemma RenderInjective(a: LockKey, b: LockKey)
    requires Render(a) == Render(b)
    ensures a == b
  {
    assert Render(a)[0] == Render(b)[0];
    match a
    case ExchangeKey =>
    case GrantKey(id) => assert id == Render(a)[6..];
    case SubjectKey(id) => assert id == Render(a)[8..];
  }

  // --- the steps ---

  /** The promise stored by op `i` is resolved. */
  predicate Resolved(ops: seq<Op>, i: nat)
    requires i < |ops|
  {
    ops[i].phase.Done? &&
    match ops[i].previous
    case None => true
    case Some(p) => p < i && Resolved(ops, p)
  }

  predicate MayStart(ops: seq<Op>, i: nat)
    requires i < |ops|
  {
    ops[i].phase.Waiting? &&
    match ops[i].previous
    case None => true
    case Some(p) => p < i && Resolved(ops, p)
  }

  /** An operation that asked for a nested lock waits for that nested call before it ends. */
  predicate MayFinish(ops: seq<Op>, i: nat)
    requires i < |ops|
  {
    ops[i].phase.Running? &&
    forall c :: 0 <= c < |ops| && ops[c].parent == Some(i) ==> ops[c].phase.Done?
  }

  /** The only nested call in the store is `subject:` inside `grant:` (broker.ts:207). */
  predicate Enabled(s: Table, a: Action) {
    match a
    case Enter(key, None) => true
    case Enter(key, Some(p)) =>
      key.SubjectKey? && p < |s.ops| && s.ops[p].key.GrantKey? && s.ops[p].phase.Running?
    case Start(i) => i < |s.ops| && MayStart(s.ops, i)
    case Finish(i, _) => i < |s.ops| && MayFinish(s.ops, i)
  }

  function Apply(s: Table, a: Action): Table
    requires Enabled(s, a)
  {
    match a
    case Enter(key, parent) =>
      var previous := if key in s.tail then Some(s.tail[key]) else None;
      Table(s.ops + [Op(key, previous, parent, Waiting)], s.tail[key := |s.ops|])
    case Start(i) =>
      s.(ops := Moved(s.ops, i, Running))
    case Finish(i, threw) =>
      var key := s.ops[i].key;
      Table(Moved(s.ops, i, Done),
            if key in s.tail && s.tail[key] == i then s.tail - {key} else s.tail)
  }

  predicate Legal(s: Table, acts: seq<Action>)
    decreases |acts|
  {
    acts == [] || (Enabled(s, acts[0]) && Legal(Apply(s, acts[0]), acts[1..]))
  }

  function After(s: Table, acts: seq<Action>): Table
    requires Legal(s, acts)
    decreases |acts|
  {
    if acts == [] then s else After(Apply(s, acts[0]), acts[1..])
  }

  // --- the invariant of every schedule ---

  /** Once an op left the queue's waiting part, everyone who asked for the key before it is done. */
  ghost predicate InOrder(ops: seq<Op>) {
    forall i, j {:trigger ops[i].phase, ops[j].phase} ::
      0 <= j < i < |ops| && ops[i].key == ops[j].key && !ops[i].phase.Waiting?
      ==> ops[j].phase.Done?
  }

  /** Each op waits for the op directly before it on its key, or for nobody if all those are done. */
  ghost predicate Chained(ops: seq<Op>) {
    && (forall i {:trigger ops[i].previous} :: 0 <= i < |ops| && ops[i].previous.Some? ==>
          ops[i].previous.value < i && ops[ops[i].previous.value].key == ops[i].key)
    && (forall i, j {:trigger ops[i].previous, ops[j].phase} :: 0 <= j < i < |ops| && ops[i].key == ops[j].key ==>
          (ops[i].previous.None? ==> ops[j].phase.Done?) &&
          (ops[i].previous.Some? ==> j <= ops[i].previous.value))
  }

  /** The lock map holds exactly the keys somebody still holds or waits for, each with its last op. */
  ghost predicate TailExact(s: Table) {
    && (forall k :: k in s.tail ==> LastCaller(s.ops, s.tail[k], k))
    && (forall i {:trigger s.ops[i].phase} :: 0 <= i < |s.ops| && !s.ops[i].phase.Done? ==> s.ops[i].key in s.tail)
  }

  ghost predicate LastCaller(ops: seq<Op>, t: nat, k: LockKey) {
    && t < |ops| && ops[t].key == k && !ops[t].phase.Done?
    && forall i {:trigger ops[i].key} :: t < i < |ops| ==> ops[i].key != k
  }

  ghost predicate Nested(ops: seq<Op>) {
    forall c {:trigger ops[c].parent} :: 0 <= c < |ops| && ops[c].parent.Some? ==>
      && ops[c].key.SubjectKey?
      && ops[c].parent.value < |ops|
      && ops[ops[c].parent.value].key.GrantKey?
  }

  ghost predicate Inv(s: Table) {
    InOrder(s.ops) && Chained(s.ops) && TailExact(s) && Nested(s.ops)
  }

  /** An op moving on to phase `p`. */
  function Moved(ops: seq<Op>, i: nat, p: Phase): (r: seq<Op>)
    requires i < |ops|
  {
    ops[i := ops[i].(phase := p)]
  }

  lemma MovedKeepsOrder(ops: seq<Op>, i: nat, p: Phase)
    requires i < |ops| && InOrder(ops) && !ops[i].phase.Done?
    requires p.Running? || p.Done?
    requires forall j :: 0 <= j < i && ops[j].key == ops[i].key ==> ops[j].phase.Done?
    ensures InOrder(Moved(ops, i, p))
  {
  }

  lemma MovedKeepsChain(ops: seq<Op>, i: nat, p: Phase)
    requires i < |ops| && Chained(ops) && Nested(ops) && !ops[i].phase.Done?
    ensures Chained(Moved(ops, i, p)) && Nested(Moved(ops, i, p))
  {
    var ops' := Moved(ops, i, p);
    assert forall j :: 0 <= j < |ops| ==>
      ops'[j].key == ops[j].key && ops'[j].previous == ops[j].previous && ops'[j].parent == ops[j].parent;
  }

  lemma StartedKeepsTail(s: Table, i: nat)
    requires i < |s.ops| && TailExact(s) && !s.ops[i].phase.Done?
    ensures TailExact(s.(ops := Moved(s.ops, i, Running)))
  {
    var ops' := Moved(s.ops, i, Running);
    forall k | k in s.tail ensures LastCaller(ops', s.tail[k], k) {
      assert LastCaller(s.ops, s.tail[k], k);
    }
  }

  lemma FinishedKeepsTail(s: Table, i: nat)
    requires i < |s.ops| && TailExact(s) && !s.ops[i].phase.Done?
    requires forall j :: 0 <= j < i && s.ops[j].key == s.ops[i].key ==> s.ops[j].phase.Done?
    ensures
      var key := s.ops[i].key;
      TailExact(Table(Moved(s.ops, i, Done), if key in s.tail && s.tail[key] == i then s.tail - {key} else s.tail))
  {
    var key := s.ops[i].key;
    var s' := Table(Moved(s.ops, i, Done), if key in s.tail && s.tail[key] == i then s.tail - {key} else s.tail);
    assert LastCaller(s.ops, s.tail[key], key);
    forall k | k in s'.tail ensures LastCaller(s'.ops, s'.tail[k], k) {
      assert LastCaller(s.ops, s.tail[k], k);
    }
    forall j | 0 <= j < |s'.ops| && !s'.ops[j].phase.Done? ensures s'.ops[j].key in s'.tail {
      assert s'.ops[j] == s.ops[j];
    }
  }

  lemma EnteredKeepsTail(s: Table, key: LockKey, op: Op)
    requires TailExact(s) && op.key == key && op.phase.Waiting?
    ensures TailExact(Table(s.ops + [op], s.tail[key := |s.ops|]))
  {
    var s' := Table(s.ops + [op], s.tail[key := |s.ops|]);
    forall k | k in s'.tail ensures LastCaller(s'.ops, s'.tail[k], k) {
      assert k != key ==> LastCaller(s.ops, s.tail[k], k);
    }
    forall j | 0 <= j < |s'.ops| && !s'.ops[j].phase.Done? ensures s'.ops[j].key in s'.tail {
      assert j < |s.ops| ==> s'.ops[j] == s.ops[j];
    }
  }

  /** What the tail of a key says about everyone who asked for it. */
  lemma TailTells(s: Table, key: LockKey, j: nat)
    requires TailExact(s) && j < |s.ops| && s.ops[j].key == key
    ensures if key in s.tail then j <= s.tail[key] < |s.ops| && s.ops[s.tail[key]].key == key else s.ops[j].phase.Done?
  {
    assert key in s.tail ==> LastCaller(s.ops, s.tail[key], key);
  }

  lemma AppendKeepsChain(ops: seq<Op>, op: Op)
    requires Chained(ops)
    requires op.previous.Some? ==> op.previous.value < |ops| && ops[op.previous.value].key == op.key
    requires forall j :: 0 <= j < |ops| && ops[j].key == op.key ==>
               if op.previous.None? then ops[j].phase.Done? else j <= op.previous.value
    ensures Chained(ops + [op])
  {
  }

  lemma EnteredKeepsChain(s: Table, key: LockKey, parent: Option<nat>)
    requires TailExact(s) && Chained(s.ops) && Enabled(s, Enter(key, parent))
    ensures Chained(Apply(s, Enter(key, parent)).ops)
  {
    hide Chained, TailExact;
    var op := Apply(s, Enter(key, parent)).ops[|s.ops|];
    forall j | 0 <= j < |s.ops| && s.ops[j].key == key
      ensures if op.previous.None? then s.ops[j].phase.Done? else j <= op.previous.value
    {
      TailTells(s, key, j);
    }
    if key in s.tail {
      TailIsKeyed(s, key);
    }
    AppendKeepsChain(s.ops, op);
  }

  lemma TailIsKeyed(s: Table, key: LockKey)
    requires TailExact(s) && key in s.tail
    ensures s.tail[key] < |s.ops| && s.ops[s.tail[key]].key == key
  {
    assert LastCaller(s.ops, s.tail[key], key);
  }

  /** The first caller in line: everyone who asked for its key before it is done. */
  lemma StarterIsFirst(ops: seq<Op>, i: nat)
    requires InOrder(ops) && Chained(ops) && i < |ops| && MayStart(ops, i)
    ensures forall j :: 0 <= j < i && ops[j].key == ops[i].key ==> ops[j].phase.Done?
  {
    forall j | 0 <= j < i && ops[j].key == ops[i].key ensures ops[j].phase.Done? {
      if ops[i].previous.Some? {
        assert ops[ops[i].previous.value].phase.Done?;
      }
    }
  }

  lemma StepKeepsInv(s: Table, a: Action)
    requires Inv(s) && Enabled(s, a)
    ensures Inv(Apply(s, a))
  {
    hide InOrder, Chained, TailExact, Nested;
    match a
    case Enter(key, parent) =>
      EnteredKeepsTail(s, key, Apply(s, a).ops[|s.ops|]);
      EnteredKeepsChain(s, key, parent);
      EnteredKeepsOrder(s, key, parent);
    case Start(i) =>
      StarterIsFirst(s.ops, i);
      MovedKeepsOrder(s.ops, i, Running);
      MovedKeepsChain(s.ops, i, Running);
      StartedKeepsTail(s, i);
    case Finish(i, _) =>
      RunnerIsFirst(s.ops, i);
      MovedKeepsOrder(s.ops, i, Done);
      MovedKeepsChain(s.ops, i, Done);
      FinishedKeepsTail(s, i);
  }

  lemma EnteredKeepsOrder(s: Table, key: LockKey, parent: Option<nat>)
    requires InOrder(s.ops) && Nested(s.ops) && Enabled(s, Enter(key, parent))
    ensures InOrder(Apply(s, Enter(key, parent)).ops) && Nested(Apply(s, Enter(key, parent)).ops)
  {
  }

  lemma RunnerIsFirst(ops: seq<Op>, i: nat)
    requires InOrder(ops) && i < |ops| && ops[i].phase.Running?
    ensures forall j :: 0 <= j < i && ops[j].key == ops[i].key ==> ops[j].phase.Done?
  {
  }

  lemma RunKeepsInv(s: Table, acts: seq<Action>)
    requires Inv(s) && Legal(s, acts)
    ensures Inv(After(s, acts))
    decreases |acts|
  {
    if acts != [] {
      StepKeepsInv(s, acts[0]);
      RunKeepsInv(Apply(s, acts[0]), acts[1..]);
    }
  }

  // --- what withLock is for ---

  /** At no point of any schedule do two operations run under one key. */
  lemma MutualExclusion(acts: seq<Action>, i: nat, j: nat)
    requires Legal(Empty, acts)
    requires i < |After(Empty, acts).ops| && j < |After(Empty, acts).ops|
    requires After(Empty, acts).ops[i].phase.Running? && After(Empty, acts).ops[j].phase.Running?
    requires After(Empty, acts).ops[i].key == After(Empty, acts).ops[j].key
    ensures i == j
  {
    RunKeepsInv(Empty, acts);
  }

  /** Callers of one key run in the order in which they called, whether operations throw or not. */
  lemma FirstComeFirstServed(acts: seq<Action>, first: nat, second: nat)
    requires Legal(Empty, acts)
    requires first < second < |After(Empty, acts).ops|
    requires After(Empty, acts).ops[first].key == After(Empty, acts).ops[second].key
    requires !After(Empty, acts).ops[second].phase.Waiting?
    ensures After(Empty, acts).ops[first].phase.Done?
  {
    RunKeepsInv(Empty, acts);
  }

  /** The lock map names exactly the keys with an unfinished caller: none is dropped, none leaks. */
  lemma LockMapExact(acts: seq<Action>, key: LockKey)
    requires Legal(Empty, acts)
    ensures key in After(Empty, acts).tail <==>
            exists i :: 0 <= i < |After(Empty, acts).ops| &&
                        After(Empty, acts).ops[i].key == key && !After(Empty, acts).ops[i].phase.Done?
  {
    RunKeepsInv(Empty, acts);
  }

  function Outstanding(s: Table): set<nat> {
    set i | 0 <= i < |s.ops| && !s.ops[i].phase.Done?
  }

  lemma EmptyWhenIdle(acts: seq<Action>)
    requires Legal(Empty, acts)
    ensures After(Empty, acts).tail == map[] <==> Outstanding(After(Empty, acts)) == {}
  {
    var s := After(Empty, acts);
    RunKeepsInv(Empty, acts);
    if s.tail == map[] {
      forall i | 0 <= i < |s.ops| ensures s.ops[i].phase.Done? { assert s.ops[i].key !in s.tail; }
    }
    if Outstanding(s) == {} {
      assert forall k :: k in s.tail ==> s.tail[k] in Outstanding(s);
      assert s.tail.Keys == {};
    }
  }

  /** Under the invariant a done op's promise is resolved, so its successor may start. */
  lemma {:induction false} DoneIsResolved(ops: seq<Op>, i: nat)
    requires InOrder(ops) && Chained(ops)
    requires i < |ops| && ops[i].phase.Done?
    ensures Resolved(ops, i)
  {
    if ops[i].previous.Some? {
      DoneIsResolved(ops, ops[i].previous.value);
    }
  }

  /** The unfinished op of its key that called first can take a step, if nothing it waits for is nested. */
  lemma FirstOfKeyMoves(s: Table, i: nat) returns (a: Action)
    requires Inv(s) && i < |s.ops| && !s.ops[i].phase.Done?
    requires s.ops[i].key.GrantKey? ==>
               forall c :: 0 <= c < |s.ops| && s.ops[c].key.SubjectKey? ==> s.ops[c].phase.Done?
    ensures !a.Enter? && Enabled(s, a)
    decreases i
  {
    if j: nat :| j < i && s.ops[j].key == s.ops[i].key && !s.ops[j].phase.Done? {
      a := FirstOfKeyMoves(s, j);
    } else if s.ops[i].phase.Running? {
      a := Finish(i, false);
    } else {
      if s.ops[i].previous.Some? {
        DoneIsResolved(s.ops, s.ops[i].previous.value);
      }
      a := Start(i);
    }
  }

  /** No schedule deadlocks: while somebody is unfinished, somebody can start or finish. */
  lemma NoDeadlock(acts: seq<Action>)
    requires Legal(Empty, acts)
    requires Outstanding(After(Empty, acts)) != {}
    ensures exists a: Action :: !a.Enter? && Enabled(After(Empty, acts), a)
  {
    var s := After(Empty, acts);
    RunKeepsInv(Empty, acts);
    var i :| i in Outstanding(s);
    if c: nat :| c < |s.ops| && s.ops[c].key.SubjectKey? && !s.ops[c].phase.Done? {
      var a := FirstOfKeyMoves(s, c);
    } else {
      var a := FirstOfKeyMoves(s, i);
    }
  }

  /** Two steps for every waiting op, one for every running op. */
  function Work(ops: seq<Op>): nat {
    if ops == [] then 0
    else Work(ops[..|ops| - 1]) +
         (match ops[|ops| - 1].phase case Waiting => 2 case Running => 1 case Done => 0)
  }

  lemma {:induction false} WorkUpdate(ops: seq<Op>, i: nat, p: Phase)
    requires i < |ops|
    requires (ops[i].phase == Waiting && p == Running) || (ops[i].phase == Running && p == Done)
    ensures Work(ops) == Work(Moved(ops, i, p)) + 1
  {
    var ops' := Moved(ops, i, p);
    var n := |ops| - 1;
    if i == n {
      assert ops[..n] == ops'[..n];
    } else {
      WorkUpdate(ops[..n], i, p);
      assert ops'[..n] == Moved(ops[..n], i, p);
    }
  }

  lemma {:induction false} NoWorkIsIdle(ops: seq<Op>)
    ensures Work(ops) == 0 <==> forall i :: 0 <= i < |ops| ==> ops[i].phase.Done?
  {
    if ops != [] {
      var n := |ops| - 1;
      NoWorkIsIdle(ops[..n]);
      if Work(ops) == 0 {
        forall i | 0 <= i < |ops| ensures ops[i].phase.Done? {
          assert i < n ==> ops[i] == ops[..n][i];
        }
      } else if Work(ops[..n]) != 0 {
        var i :| 0 <= i < n && !ops[..n][i].phase.Done?;
        assert !ops[i].phase.Done?;
      }
    }
  }

  /**
    Every waiting caller is served: once no new calls arrive, each step uses up one unit of work, and
    a schedule that cannot be continued has used up all of it and left the lock map empty.
   */
  lemma {:induction false} DrainsCompletely(before: seq<Action>, drain: seq<Action>)
    requires Legal(Empty, before) && Legal(After(Empty, before), drain)
    requires forall a :: a in drain ==> !a.Enter?
    ensures |drain| <= Work(After(Empty, before).ops)
    ensures |drain| == Work(After(Empty, before).ops) <==>
            !exists a: Action :: !a.Enter? && Enabled(After(After(Empty, before), drain), a)
    ensures |drain| == Work(After(Empty, before).ops) ==>
              After(After(Empty, before), drain).tail == map[]
    decreases |drain|
  {
    var s := After(Empty, before);
    if drain == [] {
      NoWorkIsIdle(s.ops);
      if Work(s.ops) == 0 {
        EmptyWhenIdle(before);
        assert Outstanding(s) == {};
        forall a: Action | !a.Enter? ensures !Enabled(s, a) {
        }
      } else {
        var i :| 0 <= i < |s.ops| && !s.ops[i].phase.Done?;
        assert i in Outstanding(s);
        NoDeadlock(before);
      }
    } else {
      var a := drain[0];
      assert !a.Enter?;
      match a {
        case Start(i) => WorkUpdate(s.ops, i, Running);
        case Finish(i, _) => WorkUpdate(s.ops, i, Done);
      }
      AfterAppend(Empty, before, [a]);
      assert After(s, [a]) == Apply(s, a);
      DrainsCompletely(before + [a], drain[1..]);
    }
  }

  lemma {:induction false} AfterAppend(s: Table, first: seq<Action>, second: seq<Action>)
    requires Legal(s, first) && Legal(After(s, first), second)
    ensures Legal(s, first + second) && After(s, first + second) == After(After(s, first), second)
    decreases |first|
  {
    if first == [] {
      assert first + second == second;
    } else {
      AfterAppend(Apply(s, first[0]), first[1..], second);
      assert (first + second)[1..] == first[1..] + second;
    }
  }

  // --- the lock as its users see it ---

  /** The keys under which an operation is running. */
  function Held(s: Table): set<LockKey> {
    HeldIn(s.ops)
  }

  function HeldIn(ops: seq<Op>): set<LockKey> {
    set i | 0 <= i < |ops| && ops[i].phase.Running? :: ops[i].key
  }

  /** The chain of promises refines a set of held keys: acquire a free key, release a held one. */
  lemma RefinesHeldKeys(acts: seq<Action>, a: Action)
    requires Legal(Empty, acts) && Enabled(After(Empty, acts), a)
    ensures
      var s := After(Empty, acts);
      match a
      case Enter(_, _) => Held(Apply(s, a)) == Held(s)
      case Start(i) => s.ops[i].key !in Held(s) && Held(Apply(s, a)) == Held(s) + {s.ops[i].key}
      case Finish(i, _) => s.ops[i].key in Held(s) && Held(Apply(s, a)) == Held(s) - {s.ops[i].key}
  {
    RunKeepsInv(Empty, acts);
    HeldKeys(After(Empty, acts), a);
  }

  lemma HeldKeys(s: Table, a: Action)
    requires Inv(s) && Enabled(s, a)
    ensures
      match a
      case Enter(_, _) => Held(Apply(s, a)) == Held(s)
      case Start(i) => s.ops[i].key !in Held(s) && Held(Apply(s, a)) == Held(s) + {s.ops[i].key}
      case Finish(i, _) => s.ops[i].key in Held(s) && Held(Apply(s, a)) == Held(s) - {s.ops[i].key}
  {
    match a
    case Enter(_, _) =>
      HeldGrows(s.ops, Apply(s, a).ops, {});
      HeldGrows(Apply(s, a).ops, s.ops, {});
    case Start(i) =>
      StarterIsFirst(s.ops, i);
      HeldWhenStarted(s.ops, i);
    case Finish(i, _) =>
      HeldWhenFinished(s.ops, i);
  }

  lemma HeldWhenStarted(ops: seq<Op>, i: nat)
    requires InOrder(ops) && i < |ops| && ops[i].phase.Waiting?
    requires forall j :: 0 <= j < i && ops[j].key == ops[i].key ==> ops[j].phase.Done?
    ensures ops[i].key !in HeldIn(ops) && HeldIn(Moved(ops, i, Running)) == HeldIn(ops) + {ops[i].key}
  {
    assert Moved(ops, i, Running)[i].phase.Running?;
    HeldGrows(ops, Moved(ops, i, Running), {});
    HeldGrows(Moved(ops, i, Running), ops, {ops[i].key});
  }

  lemma HeldWhenFinished(ops: seq<Op>, i: nat)
    requires InOrder(ops) && i < |ops| && ops[i].phase.Running?
    ensures ops[i].key in HeldIn(ops) && HeldIn(Moved(ops, i, Done)) == HeldIn(ops) - {ops[i].key}
  {
    var ops' := Moved(ops, i, Done);
    HeldGrows(ops, ops', {ops[i].key});
    HeldGrows(ops', ops, {});
  }

  /** Keys outside `except` whose running op runs on stay held. */
  lemma HeldGrows(ops: seq<Op>, ops': seq<Op>, except: set<LockKey>)
    requires forall j :: 0 <= j < |ops| && ops[j].phase.Running? && ops[j].key !in except ==>
               j < |ops'| && ops'[j] == ops[j]
    ensures HeldIn(ops) - except <= HeldIn(ops')
  {
    forall k | k in HeldIn(ops) - except ensures k in HeldIn(ops') {
      var j :| 0 <= j < |ops| && ops[j].phase.Running? && ops[j].key == k;
      assert ops'[j] == ops[j];
    }
  }

  // --- the imperative form ---

  /** `locks` is the source's map; `ops` stands for the promises and gates the runtime keeps. */
  class LockTable {
    var ops: seq<Op>
    var locks: map<LockKey, nat>

    function State(): Table
      reads this
    {
      Table(ops, locks)
    }

    constructor ()
      ensures State() == Empty
    {
      ops, locks := [], map[];
    }

    /** The part of `withLock` up to its first await. */
    method Enter(key: LockKey, parent: Option<nat>) returns (op: nat)
      requires Enabled(State(), Action.Enter(key, parent))
      modifies this
      ensures State() == Apply(old(State()), Action.Enter(key, parent))
      ensures op == |old(ops)|
    {
      var previous: Option<nat> := None;
      if key in locks {
        previous := Some(locks[key]);
      }
      op := |ops|;
      ops := ops + [Op(key, previous, parent, Waiting)];
      locks := locks[key := op];
    }

    /** The captured promise resolved, so the operation begins. */
    method Start(op: nat)
      requires Enabled(State(), Action.Start(op))
      modifies this
      ensures State() == Apply(old(State()), Action.Start(op))
    {
      ops := ops[op := ops[op].(phase := Running)];
    }

    /** The `finally` block, reached by a return and by a throw alike. */
    method Finish(op: nat, threw: bool)
      requires Enabled(State(), Action.Finish(op, threw))
      modifies this
      ensures State() == Apply(old(State()), Action.Finish(op, threw))
    {
      var key := ops[op].key;
      ops := ops[op := ops[op].(phase := Done)];
      if key in locks && locks[key] == op {
        locks := locks - {key};
      }
    }
  }
}
