/**
  The two fixed-window rate limiters (packages/service/src/rate-limit.ts): one opens a window at the
  first call it lets through, the other aligns windows to the clock.
 */
module RateLimitModel {
  /** A bucket of the in-memory limiter, or a row of the database one. */
  datatype Bucket = Bucket(startedAt: int, count: int)

  type Buckets = map<string, Bucket>

  datatype Limiter = Anchored | Aligned

  /** `Math.floor(now / window) * window`: the start of the clock-aligned window that contains `now`. */
  function FloorTo(now: int, window: int): int
    requires window != 0
  {
    (if window > 0 then now / window else -now / -window) * window
  }

  function Take(limiter: Limiter, buckets: Buckets, key: string, limit: int, windowSeconds: int, now: int): (Buckets, bool)
    requires limiter.Aligned? ==> windowSeconds != 0
  {
    var window := windowSeconds * 1000;
    if limit < 1 then (buckets, false)
    else
      match limiter
      case Anchored =>
        if key !in buckets || now - buckets[key].startedAt >= window then (buckets[key := Bucket(now, 1)], true)
        else if buckets[key].count >= limit then (buckets, false)
        else (buckets[key := buckets[key].(count := buckets[key].count + 1)], true)
      case Aligned =>
        var start := FloorTo(now, window);
        var row := if key in buckets && buckets[key].startedAt == start
                   then Bucket(start, buckets[key].count + 1) else Bucket(start, 1);
        (buckets[key := row], row.count <= limit)
  }

  // --- runs ---

  datatype Call = Call(key: string, limit: int, windowSeconds: int, now: int)

  /** A call on one key: its time, the start of the window it fell into, and the answer. */
  datatype Entry = Entry(at: int, start: int, allowed: bool)

  /** One clock for all calls; the calls on `key` share a limit and a window. */
  ghost predicate Uniform(calls: seq<Call>, key: string, limit: int, windowSeconds: int) {
    && (forall i, j :: 0 <= i < j < |calls| ==> calls[i].now <= calls[j].now)
    && (forall i :: 0 <= i < |calls| ==> calls[i].windowSeconds >= 1)
    && (forall i :: 0 <= i < |calls| && calls[i].key == key ==>
          calls[i].limit == limit && calls[i].windowSeconds == windowSeconds)
  }

  function After(limiter: Limiter, calls: seq<Call>): Buckets
    requires forall i :: 0 <= i < |calls| ==> calls[i].windowSeconds >= 1
  {
    if calls == [] then map[]
    else
      var n := |calls| - 1;
      Take(limiter, After(limiter, calls[..n]), calls[n].key, calls[n].limit, calls[n].windowSeconds, calls[n].now).0
  }

  /** The calls on `key`, in order, each with the window its bucket was left in. */
  function History(limiter: Limiter, calls: seq<Call>, key: string): seq<Entry>
    requires forall i :: 0 <= i < |calls| ==> calls[i].windowSeconds >= 1
  {
    if calls == [] then []
    else
      var n := |calls| - 1;
      var rest := History(limiter, calls[..n], key);
      var c := calls[n];
      var (after, allowed) := Take(limiter, After(limiter, calls[..n]), c.key, c.limit, c.windowSeconds, c.now);
      if c.key != key || key !in after then rest else rest + [Entry(c.now, after[key].startedAt, allowed)]
  }

  function Granted(h: seq<Entry>, start: int): nat {
    if h == [] then 0
    else Granted(h[..|h| - 1], start) + if h[|h| - 1].allowed && h[|h| - 1].start == start then 1 else 0
  }

  /** Calls let through at a time in `[from, from + length)`. */
  function GrantedWithin(h: seq<Entry>, from: int, length: int): nat {
    if h == [] then 0
    else GrantedWithin(h[..|h| - 1], from, length) +
         if h[|h| - 1].allowed && from <= h[|h| - 1].at < from + length then 1 else 0
  }

  // --- what both limiters are: a call passes exactly while its window has room ---

  ghost predicate FixedWindows(h: seq<Entry>, limit: int, window: int) {
    InWindow(h, window) && Spaced(h, window) && Exact(h, limit)
  }

  ghost predicate InWindow(h: seq<Entry>, window: int) {
    forall i {:trigger h[i]} :: 0 <= i < |h| ==> h[i].start <= h[i].at < h[i].start + window
  }

  ghost predicate Spaced(h: seq<Entry>, window: int) {
    forall i, j {:trigger h[i], h[j]} :: 0 <= i < j < |h| ==> Apart(h[i], h[j], window)
  }

  ghost predicate Apart(a: Entry, b: Entry, window: int) {
    a.at <= b.at && (a.start == b.start || a.start + window <= b.start)
  }

  ghost predicate Exact(h: seq<Entry>, limit: int) {
    forall i {:trigger h[i]} :: 0 <= i < |h| ==> (h[i].allowed <==> Granted(h[..i], h[i].start) < limit)
  }

  /** The bucket after a run: the last window with the calls it counted. */
  ghost predicate BucketFits(limiter: Limiter, h: seq<Entry>, buckets: Buckets, key: string, limit: int, window: int)
    requires window >= 1
  {
    if h == [] then key !in buckets
    else
      var last := h[|h| - 1];
      && key in buckets && buckets[key].startedAt == last.start && buckets[key].count >= 1
      && Granted(h, last.start) == (if buckets[key].count <= limit then buckets[key].count else limit)
      && (limiter.Anchored? ==> buckets[key].count <= limit)
      && (limiter.Aligned? ==> last.start == FloorTo(last.at, window))
  }

  lemma {:induction false} NoneGranted(h: seq<Entry>, start: int)
    requires forall i :: 0 <= i < |h| ==> h[i].start != start
    ensures Granted(h, start) == 0
  {
    if h != [] {
      NoneGranted(h[..|h| - 1], start);
    }
  }

  /** Aligned starts of a non-decreasing clock are equal or a whole window apart. */
  lemma AlignedStarts(a: int, b: int, window: int)
    requires a <= b && window >= 1
    ensures FloorTo(b, window) <= b < FloorTo(b, window) + window
    ensures FloorTo(a, window) == FloorTo(b, window) || FloorTo(a, window) + window <= FloorTo(b, window)
  {
    var p, q := a / window, b / window;
    assert a == p * window + a % window && b == q * window + b % window;
    FloorIsMonotone(a, b, window);
    if p < q {
      Multiples(p + 1, q, window);
      assert (p + 1) * window == p * window + window;
    }
  }

  lemma FloorIsMonotone(a: int, b: int, window: int)
    requires a <= b && window >= 1
    ensures a / window <= b / window
  {
    var p, q := a / window, b / window;
    assert (q + 1) * window == q * window + window > b;
    if q + 1 <= p {
      Multiples(q + 1, p, window);
    }
  }

  lemma {:induction false} Multiples(p: int, q: int, window: int)
    requires p <= q && window >= 1
    ensures p * window <= q * window
    decreases q - p
  {
    if p < q {
      Multiples(p, q - 1, window);
      assert q * window == (q - 1) * window + window;
    }
  }

  lemma EntryAppended(h: seq<Entry>, e: Entry, limit: int, window: int)
    requires FixedWindows(h, limit, window) && window >= 0
    requires e.start <= e.at < e.start + window
    requires h != [] ==> Apart(h[|h| - 1], e, window)
    requires e.allowed <==> Granted(h, e.start) < limit
    ensures FixedWindows(h + [e], limit, window)
  {
    hide Exact, Spaced, InWindow, Apart, Granted;
    InWindowAppended(h, e, window);
    SpacedAppended(h, e, window);
    ExactAppended(h, e, limit);
  }

  lemma InWindowAppended(h: seq<Entry>, e: Entry, window: int)
    requires InWindow(h, window) && e.start <= e.at < e.start + window
    ensures InWindow(h + [e], window)
  {
  }

  lemma SpacedAppended(h: seq<Entry>, e: Entry, window: int)
    requires Spaced(h, window) && window >= 0 && (h != [] ==> Apart(h[|h| - 1], e, window))
    ensures Spaced(h + [e], window)
  {
    hide Apart;
    var h' := h + [e];
    forall i, j | 0 <= i < j < |h'| ensures Apart(h'[i], h'[j], window) {
      if j < |h| {
        assert Apart(h[i], h[j], window);
      } else if i < |h| - 1 {
        assert Apart(h[i], h[|h| - 1], window);
        ApartAdds(h[i], h[|h| - 1], e, window);
      }
    }
  }

  lemma ApartAdds(a: Entry, b: Entry, c: Entry, window: int)
    requires Apart(a, b, window) && Apart(b, c, window) && window >= 0
    ensures Apart(a, c, window)
  {
  }

  lemma ExactAppended(h: seq<Entry>, e: Entry, limit: int)
    requires Exact(h, limit) && (e.allowed <==> Granted(h, e.start) < limit)
    ensures Exact(h + [e], limit)
  {
    var h' := h + [e];
    forall i | 0 <= i < |h'| ensures h'[i].allowed <==> Granted(h'[..i], h'[i].start) < limit {
      assert h'[..i] == if i < |h| then h[..i] else h;
    }
  }

  /** Both limiters let a call pass exactly while fewer than `limit` calls passed in its window. */
  lemma {:induction false} LimiterIsFixedWindow(limiter: Limiter, calls: seq<Call>, key: string, limit: int,
                                               windowSeconds: int)
    requires Uniform(calls, key, limit, windowSeconds) && limit >= 1 && windowSeconds >= 1
    ensures
      var h := History(limiter, calls, key);
      && FixedWindows(h, limit, windowSeconds * 1000)
      && BucketFits(limiter, h, After(limiter, calls), key, limit, windowSeconds * 1000)
      && (h != [] ==> h[|h| - 1].at <= calls[|calls| - 1].now)
  {
    hide FixedWindows, BucketFits, Take;
    if calls == [] {
      EmptyHistory(limiter, key, limit, windowSeconds * 1000);
    } else {
      var n := |calls| - 1;
      var c := calls[n];
      LimiterIsFixedWindow(limiter, calls[..n], key, limit, windowSeconds);
      var h, b := History(limiter, calls[..n], key), After(limiter, calls[..n]);
      assert h != [] ==> h[|h| - 1].at <= c.now;
      if c.key == key {
        TakeFits(limiter, h, b, c);
      } else {
        OtherKeyFits(limiter, h, b, c, key, limit, windowSeconds * 1000);
      }
    }
  }

  lemma EmptyHistory(limiter: Limiter, key: string, limit: int, window: int)
    requires window >= 1
    ensures FixedWindows([], limit, window) && BucketFits(limiter, [], map[], key, limit, window)
  {
  }

  lemma OtherKeyFits(limiter: Limiter, h: seq<Entry>, b: Buckets, c: Call, key: string, limit: int, window: int)
    requires window >= 1 && c.windowSeconds >= 1 && c.key != key && BucketFits(limiter, h, b, key, limit, window)
    ensures BucketFits(limiter, h, Take(limiter, b, c.key, c.limit, c.windowSeconds, c.now).0, key, limit, window)
  {
  }

  /** The entry a call adds: in its window, apart from the one before, allowed while its window has room, and counted. */
  ghost predicate EntryFits(limiter: Limiter, h: seq<Entry>, e: Entry, count: int, limit: int, window: int)
    requires window >= 1
  {
    && e.start <= e.at < e.start + window && (h != [] ==> Apart(h[|h| - 1], e, window))
    && (e.allowed <==> Granted(h, e.start) < limit)
    && count >= 1 && Granted(h, e.start) + (if e.allowed then 1 else 0) == (if count <= limit then count else limit)
    && (limiter.Anchored? ==> count <= limit)
    && (limiter.Aligned? ==> e.start == FloorTo(e.at, window))
  }

  lemma TakeFits(limiter: Limiter, h: seq<Entry>, b: Buckets, c: Call)
    requires c.limit >= 1 && c.windowSeconds >= 1
    requires FixedWindows(h, c.limit, c.windowSeconds * 1000)
    requires BucketFits(limiter, h, b, c.key, c.limit, c.windowSeconds * 1000)
    requires h != [] ==> h[|h| - 1].at <= c.now
    ensures
      var (after, allowed) := Take(limiter, b, c.key, c.limit, c.windowSeconds, c.now);
      && c.key in after
      && FixedWindows(h + [Entry(c.now, after[c.key].startedAt, allowed)], c.limit, c.windowSeconds * 1000)
      && BucketFits(limiter, h + [Entry(c.now, after[c.key].startedAt, allowed)], after, c.key, c.limit,
                    c.windowSeconds * 1000)
  {
    hide FloorTo, FixedWindows, BucketFits, EntryFits, Take;
    match limiter {
      case Anchored => AnchoredTake(h, b, c, c.windowSeconds * 1000);
      case Aligned => AlignedTake(h, b, c, c.windowSeconds * 1000);
    }
    var (after, allowed) := Take(limiter, b, c.key, c.limit, c.windowSeconds, c.now);
    var e := Entry(c.now, after[c.key].startedAt, allowed);
    FitsAppended(limiter, h, e, after, c.key, c.limit, c.windowSeconds * 1000);
  }

  lemma FitsAppended(limiter: Limiter, h: seq<Entry>, e: Entry, after: Buckets, key: string, limit: int, window: int)
    requires window >= 1 && key in after && after[key].startedAt == e.start
    requires FixedWindows(h, limit, window) && EntryFits(limiter, h, e, after[key].count, limit, window)
    ensures FixedWindows(h + [e], limit, window) && BucketFits(limiter, h + [e], after, key, limit, window)
  {
    hide FloorTo, FixedWindows, Apart;
    EntryAppended(h, e, limit, window);
    assert (h + [e])[..|h|] == h;
  }

  lemma AnchoredTake(h: seq<Entry>, b: Buckets, c: Call, window: int)
    requires c.limit >= 1 && c.windowSeconds >= 1 && window == c.windowSeconds * 1000
    requires FixedWindows(h, c.limit, window) && BucketFits(Anchored, h, b, c.key, c.limit, window)
    requires h != [] ==> h[|h| - 1].at <= c.now
    ensures
      var (after, allowed) := Take(Anchored, b, c.key, c.limit, c.windowSeconds, c.now);
      && c.key in after
      && EntryFits(Anchored, h, Entry(c.now, after[c.key].startedAt, allowed), after[c.key].count, c.limit, window)
  {
    hide FloorTo, FixedWindows, Granted;
    if h == [] {
      NoneGranted(h, c.now);
    } else if c.now - h[|h| - 1].start >= window {
      NewWindow(h, Entry(c.now, c.now, true), c.limit, window);
    } else {
      SameWindow(h, c.limit, window);
    }
  }

  lemma AlignedTake(h: seq<Entry>, b: Buckets, c: Call, window: int)
    requires c.limit >= 1 && c.windowSeconds >= 1 && window == c.windowSeconds * 1000
    requires FixedWindows(h, c.limit, window) && BucketFits(Aligned, h, b, c.key, c.limit, window)
    requires h != [] ==> h[|h| - 1].at <= c.now
    ensures
      var (after, allowed) := Take(Aligned, b, c.key, c.limit, c.windowSeconds, c.now);
      && c.key in after
      && EntryFits(Aligned, h, Entry(c.now, after[c.key].startedAt, allowed), after[c.key].count, c.limit, window)
  {
    hide FloorTo, FixedWindows, Granted;
    var start := FloorTo(c.now, window);
    AlignedStarts(if h != [] then h[|h| - 1].at else c.now, c.now, window);
    if h == [] {
      NoneGranted(h, start);
    } else if h[|h| - 1].start != start {
      NewWindow(h, Entry(c.now, start, true), c.limit, window);
    } else {
      SameWindow(h, c.limit, window);
    }
  }

  lemma SameWindow(h: seq<Entry>, limit: int, window: int)
    requires h != [] && FixedWindows(h, limit, window)
    ensures h[|h| - 1].start <= h[|h| - 1].at < h[|h| - 1].start + window
  {
  }

  lemma NewWindow(h: seq<Entry>, e: Entry, limit: int, window: int)
    requires FixedWindows(h, limit, window) && window >= 1
    requires h != [] ==> h[|h| - 1].at <= e.at && h[|h| - 1].start + window <= e.start
    ensures Granted(h, e.start) == 0
  {
    forall i | 0 <= i < |h| ensures h[i].start != e.start {
      assert Apart(h[i], h[|h| - 1], window) || i == |h| - 1;
    }
    NoneGranted(h, e.start);
  }

  // --- the bound over any sliding interval ---

  lemma {:induction false} WindowHoldsLimit(h: seq<Entry>, start: int, limit: int, window: int)
    requires FixedWindows(h, limit, window) && limit >= 1
    ensures Granted(h, start) <= limit
  {
    if h != [] {
      var n := |h| - 1;
      PrefixIsFixed(h, n, limit, window);
      WindowHoldsLimit(h[..n], start, limit, window);
    }
  }

  lemma PrefixIsFixed(h: seq<Entry>, n: nat, limit: int, window: int)
    requires FixedWindows(h, limit, window) && n <= |h|
    ensures FixedWindows(h[..n], limit, window)
  {
    forall i | 0 <= i < n ensures h[..n][i].allowed <==> Granted(h[..n][..i], h[..n][i].start) < limit {
      assert h[..n][..i] == h[..i];
      assert h[..n][i] == h[i];
    }
  }

  /** Passed calls at a time in the interval whose window began at `start`. */
  function GrantedIn(h: seq<Entry>, start: int, from: int, length: int): nat {
    if h == [] then 0
    else GrantedIn(h[..|h| - 1], start, from, length) +
         if h[|h| - 1].allowed && h[|h| - 1].start == start && from <= h[|h| - 1].at < from + length then 1 else 0
  }

  lemma {:induction false} GrantedInAtMost(h: seq<Entry>, start: int, from: int, length: int)
    ensures GrantedIn(h, start, from, length) <= Granted(h, start)
  {
    if h != [] {
      GrantedInAtMost(h[..|h| - 1], start, from, length);
    }
  }

  /** One passed call of the window lies outside the interval. */
  lemma {:induction false} GrantedInFewer(h: seq<Entry>, start: int, from: int, length: int, k: nat)
    requires k < |h| && h[k].allowed && h[k].start == start && !(from <= h[k].at < from + length)
    ensures GrantedIn(h, start, from, length) + 1 <= Granted(h, start)
  {
    var n := |h| - 1;
    if k < n {
      GrantedInFewer(h[..n], start, from, length, k);
    } else {
      GrantedInAtMost(h[..n], start, from, length);
    }
  }

  lemma {:induction false} TwoWindows(h: seq<Entry>, lo: int, hi: int, from: int, length: int)
    requires forall i :: 0 <= i < |h| && from <= h[i].at < from + length ==> h[i].start == lo || h[i].start == hi
    ensures lo != hi ==> GrantedWithin(h, from, length) == GrantedIn(h, lo, from, length) + GrantedIn(h, hi, from, length)
    ensures lo == hi ==> GrantedWithin(h, from, length) == GrantedIn(h, lo, from, length)
  {
    if h != [] {
      TwoWindows(h[..|h| - 1], lo, hi, from, length);
    }
  }

  lemma {:induction false} NoneWithin(h: seq<Entry>, from: int, length: int)
    requires forall i :: 0 <= i < |h| ==> !(from <= h[i].at < from + length)
    ensures GrantedWithin(h, from, length) == 0
  {
    if h != [] {
      NoneWithin(h[..|h| - 1], from, length);
    }
  }

  /** The first call in the interval, if there is one. */
  lemma FirstWithin(h: seq<Entry>, from: int, length: int) returns (n: nat)
    ensures n <= |h| && (n < |h| ==> from <= h[n].at < from + length)
    ensures forall i :: 0 <= i < n ==> !(from <= h[i].at < from + length)
  {
    n := 0;
    while n < |h| && !(from <= h[n].at < from + length)
      invariant n <= |h|
      invariant forall i :: 0 <= i < n ==> !(from <= h[i].at < from + length)
    {
      n := n + 1;
    }
  }

  lemma LastWithin(h: seq<Entry>, from: int, length: int, first: nat, window: int) returns (n: nat)
    requires first < |h| && from <= h[first].at < from + length
    requires Spaced(h, window)
    ensures first <= n < |h| && from <= h[n].at < from + length
    ensures forall i :: n < i < |h| ==> h[i].at >= from + length
  {
    n := first;
    while n + 1 < |h| && h[n + 1].at < from + length
      invariant first <= n < |h| && from <= h[n].at < from + length
    {
      n := n + 1;
    }
    if n + 1 < |h| {
      forall i | n < i < |h| ensures h[i].at >= from + length {
        assert i == n + 1 || Apart(h[n + 1], h[i], window);
      }
    }
  }

  /** An interval of one window length meets at most two windows: those of its first and last call. */
  lemma MeetsTwo(h: seq<Entry>, limit: int, window: int, from: int) returns (lo: int, hi: int)
    requires FixedWindows(h, limit, window)
    ensures forall i :: 0 <= i < |h| && from <= h[i].at < from + window ==> h[i].start == lo || h[i].start == hi
    ensures lo == hi || (lo + window <= hi && hi < from + window)
  {
    hide Granted;
    lo, hi := 0, 0;
    var first := FirstWithin(h, from, window);
    if first < |h| {
      var last := LastWithin(h, from, window, first, window);
      lo, hi := h[first].start, h[last].start;
      forall i | 0 <= i < |h| && from <= h[i].at < from + window ensures h[i].start == lo || h[i].start == hi {
        assert first <= i <= last;
      }
      assert first == last || Apart(h[first], h[last], window);
    }
  }

  /** At most twice the limit passes in any half-open interval of one window length. */
  lemma SlidingBound(limiter: Limiter, calls: seq<Call>, key: string, limit: int, windowSeconds: int, from: int)
    requires Uniform(calls, key, limit, windowSeconds) && limit >= 1 && windowSeconds >= 1
    ensures GrantedWithin(History(limiter, calls, key), from, windowSeconds * 1000) <= 2 * limit
  {
    LimiterIsFixedWindow(limiter, calls, key, limit, windowSeconds);
    var h, window := History(limiter, calls, key), windowSeconds * 1000;
    var lo, hi := MeetsTwo(h, limit, window, from);
    TwoWindows(h, lo, hi, from, window);
    GrantedInAtMost(h, lo, from, window);
    GrantedInAtMost(h, hi, from, window);
    WindowHoldsLimit(h, lo, limit, window);
    WindowHoldsLimit(h, hi, limit, window);
  }

  /** The call that opens a window of the in-memory limiter passes, at the window's start. */
  lemma {:induction false} WindowsOpenWithACall(calls: seq<Call>, key: string, limit: int, windowSeconds: int, i: nat)
    returns (k: nat)
    requires Uniform(calls, key, limit, windowSeconds) && limit >= 1 && windowSeconds >= 1
    requires i < |History(Anchored, calls, key)|
    ensures
      var h := History(Anchored, calls, key);
      k < |h| && h[k].allowed && h[k].start == h[i].start && h[k].at == h[i].start
  {
    hide Take, FixedWindows, BucketFits, After;
    var n := |calls| - 1;
    var h, rest := History(Anchored, calls, key), History(Anchored, calls[..n], key);
    if i < |rest| {
      k := WindowsOpenWithACall(calls[..n], key, limit, windowSeconds, i);
    } else if rest != [] && rest[|rest| - 1].start == h[i].start {
      k := WindowsOpenWithACall(calls[..n], key, limit, windowSeconds, |rest| - 1);
    } else {
      LimiterIsFixedWindow(Anchored, calls[..n], key, limit, windowSeconds);
      NewWindowOpens(calls, key, limit, windowSeconds);
      k := i;
    }
  }

  /** A call that finds no bucket, or one whose window is over, passes and opens a window. */
  lemma NewWindowOpens(calls: seq<Call>, key: string, limit: int, windowSeconds: int)
    requires Uniform(calls, key, limit, windowSeconds) && limit >= 1 && windowSeconds >= 1 && calls != []
    requires
      var rest := History(Anchored, calls[..|calls| - 1], key);
      BucketFits(Anchored, rest, After(Anchored, calls[..|calls| - 1]), key, limit, windowSeconds * 1000)
    ensures
      var h, rest := History(Anchored, calls, key), History(Anchored, calls[..|calls| - 1], key);
      |h| == |rest| + 1 && (rest == [] || rest[|rest| - 1].start != h[|rest|].start) ==>
        h[|rest|].allowed && h[|rest|].at == h[|rest|].start
  {
    hide After, Granted;
  }

  /** For the in-memory limiter the bound is one less: the opening call of the older window is out of reach. */
  lemma AnchoredSlidingBound(calls: seq<Call>, key: string, limit: int, windowSeconds: int, from: int)
    requires Uniform(calls, key, limit, windowSeconds) && limit >= 1 && windowSeconds >= 1
    ensures GrantedWithin(History(Anchored, calls, key), from, windowSeconds * 1000) <= 2 * limit - 1
  {
    LimiterIsFixedWindow(Anchored, calls, key, limit, windowSeconds);
    var h, window := History(Anchored, calls, key), windowSeconds * 1000;
    var lo, hi := MeetsTwo(h, limit, window, from);
    TwoWindows(h, lo, hi, from, window);
    GrantedInAtMost(h, lo, from, window);
    GrantedInAtMost(h, hi, from, window);
    WindowHoldsLimit(h, lo, limit, window);
    WindowHoldsLimit(h, hi, limit, window);
    if lo != hi {
      if i: nat :| i < |h| && h[i].start == lo {
        var k := WindowsOpenWithACall(calls, key, limit, windowSeconds, i);
        GrantedInFewer(h, lo, from, window, k);
      } else {
        NoneGranted(h, lo);
      }
    }
  }

  /** A refused call means that the limit was already used up within its window, which began at most a window ago. */
  lemma RefusalMeansFull(limiter: Limiter, calls: seq<Call>, key: string, limit: int, windowSeconds: int, i: nat)
    requires Uniform(calls, key, limit, windowSeconds) && limit >= 1 && windowSeconds >= 1
    requires i < |History(limiter, calls, key)|
    ensures
      var h := History(limiter, calls, key);
      && (h[i].allowed <==> Granted(h[..i], h[i].start) < limit)
      && (!h[i].allowed ==> Granted(h[..i], h[i].start) == limit)
      && h[i].at - windowSeconds * 1000 < h[i].start <= h[i].at
  {
    LimiterIsFixedWindow(limiter, calls, key, limit, windowSeconds);
    var h := History(limiter, calls, key);
    PrefixIsFixed(h, i, limit, windowSeconds * 1000);
    WindowHoldsLimit(h[..i], h[i].start, limit, windowSeconds * 1000);
  }

  // --- both bounds are reached, for every limit and every window ---

  /** The window a call at `at` falls into. */
  function Opened(limiter: Limiter, buckets: Buckets, window: int, at: int): int
    requires window >= 1
  {
    match limiter
    case Aligned => FloorTo(at, window)
    case Anchored => if "k" in buckets && at - buckets["k"].startedAt < window then buckets["k"].startedAt else at
  }

  function Counted(buckets: Buckets, start: int): int {
    if "k" in buckets && buckets["k"].startedAt == start then buckets["k"].count else 0
  }

  ghost predicate OneKey(calls: seq<Call>, limit: int, windowSeconds: int) {
    && windowSeconds >= 1 && Uniform(calls, "k", limit, windowSeconds)
    && forall i :: 0 <= i < |calls| ==> calls[i].key == "k" && calls[i].windowSeconds == windowSeconds
  }

  /** Calls let through in the window length that begins just before the first boundary after time zero. */
  function PassedAround(limiter: Limiter, calls: seq<Call>, window: int): nat
    requires forall i :: 0 <= i < |calls| ==> calls[i].windowSeconds >= 1
  {
    GrantedWithin(History(limiter, calls, "k"), window - 1, window)
  }

  lemma PassOne(limiter: Limiter, calls: seq<Call>, limit: int, windowSeconds: int, at: int, start: int, count: int)
    requires OneKey(calls, limit, windowSeconds) && (calls != [] ==> calls[|calls| - 1].now <= at)
    requires start == Opened(limiter, After(limiter, calls), windowSeconds * 1000, at)
    requires count == Counted(After(limiter, calls), start) && count < limit && limit >= 1
    ensures OneKey(calls + [Call("k", limit, windowSeconds, at)], limit, windowSeconds)
    ensures After(limiter, calls + [Call("k", limit, windowSeconds, at)])
         == After(limiter, calls)["k" := Bucket(start, count + 1)]
    ensures Opened(limiter, After(limiter, calls)["k" := Bucket(start, count + 1)], windowSeconds * 1000, at) == start
    ensures
      var window := windowSeconds * 1000;
      PassedAround(limiter, calls + [Call("k", limit, windowSeconds, at)], window)
      == PassedAround(limiter, calls, window) + if window - 1 <= at < window - 1 + window then 1 else 0
  {
    hide Take, Counted, Opened, Uniform, FloorTo, OneKey;
    var next := calls + [Call("k", limit, windowSeconds, at)];
    assert next[..|calls|] == calls;
    StillOneKey(calls, limit, windowSeconds, at);
    TakeOne(limiter, After(limiter, calls), limit, windowSeconds, at);
    var h := History(limiter, calls, "k");
    var e := Entry(at, start, true);
    assert History(limiter, next, "k") == h + [e];
  }

  lemma StillOneKey(calls: seq<Call>, limit: int, windowSeconds: int, at: int)
    requires OneKey(calls, limit, windowSeconds) && (calls != [] ==> calls[|calls| - 1].now <= at)
    ensures OneKey(calls + [Call("k", limit, windowSeconds, at)], limit, windowSeconds)
    ensures windowSeconds >= 1 && forall i :: 0 <= i < |calls| ==> calls[i].windowSeconds >= 1
  {
  }

  lemma TakeOne(limiter: Limiter, before: Buckets, limit: int, windowSeconds: int, at: int)
    requires windowSeconds >= 1 && limit >= 1
    requires Counted(before, Opened(limiter, before, windowSeconds * 1000, at)) < limit
    ensures
      var start := Opened(limiter, before, windowSeconds * 1000, at);
      var after := before["k" := Bucket(start, Counted(before, start) + 1)];
      && Take(limiter, before, "k", limit, windowSeconds, at) == (after, true)
      && Opened(limiter, after, windowSeconds * 1000, at) == start
  {
    hide FloorTo;
  }

  /** As many calls at one moment as the window has room for. */
  lemma {:induction false} PassMany(limiter: Limiter, calls: seq<Call>, limit: int, windowSeconds: int, at: int, n: nat, start: int, count: int)
    returns (next: seq<Call>)
    requires OneKey(calls, limit, windowSeconds) && (calls != [] ==> calls[|calls| - 1].now <= at) && limit >= 1
    requires start == Opened(limiter, After(limiter, calls), windowSeconds * 1000, at)
    requires count == Counted(After(limiter, calls), start) && count + n <= limit
    ensures OneKey(next, limit, windowSeconds)
    ensures if n == 0 then next == calls else next != [] && next[|next| - 1].now == at
    ensures n > 0 ==> After(limiter, next) == After(limiter, calls)["k" := Bucket(start, count + n)]
    ensures
      var window := windowSeconds * 1000;
      PassedAround(limiter, next, window)
      == PassedAround(limiter, calls, window) + if window - 1 <= at < window - 1 + window then n else 0
    decreases n
  {
    hide After, History, GrantedWithin, Uniform, FloorTo;
    next := calls;
    if n > 0 {
      PassOne(limiter, calls, limit, windowSeconds, at, start, count);
      var one := calls + [Call("k", limit, windowSeconds, at)];
      assert one[|one| - 1].now == at;
      next := PassMany(limiter, one, limit, windowSeconds, at, n - 1, start, count + 1);
    }
  }

  lemma FirstBoundary(window: int)
    requires window >= 1
    ensures FloorTo(window - 1, window) == 0 && FloorTo(window, window) == window
  {
  }

  /** A full window just before a window boundary and another just after it. */
  lemma AlignedBoundIsReached(limit: int, windowSeconds: int) returns (calls: seq<Call>)
    requires limit >= 1 && windowSeconds >= 1
    ensures Uniform(calls, "k", limit, windowSeconds)
    ensures GrantedWithin(History(Aligned, calls, "k"), windowSeconds * 1000 - 1, windowSeconds * 1000) == 2 * limit
  {
    hide FloorTo;
    var window := windowSeconds * 1000;
    FirstBoundary(window);
    assert After(Aligned, []) == map[];
    calls := PassMany(Aligned, [], limit, windowSeconds, window - 1, limit, 0, 0);
    calls := PassMany(Aligned, calls, limit, windowSeconds, window, limit, window, 0);
  }

  /** The call that opens the older window is the one that is out of reach. */
  lemma AnchoredBoundIsReached(limit: int, windowSeconds: int) returns (calls: seq<Call>)
    requires limit >= 1 && windowSeconds >= 1
    ensures Uniform(calls, "k", limit, windowSeconds)
    ensures GrantedWithin(History(Anchored, calls, "k"), windowSeconds * 1000 - 1, windowSeconds * 1000) == 2 * limit - 1
  {
    var window := windowSeconds * 1000;
    assert After(Anchored, []) == map[];
    calls := PassMany(Anchored, [], limit, windowSeconds, 0, 1, 0, 0);
    calls := PassMany(Anchored, calls, limit, windowSeconds, window - 1, limit - 1, 0, 1);
    calls := PassMany(Anchored, calls, limit, windowSeconds, window, limit, window, 0);
  }

  /** With a limit below one nothing ever passes. */
  lemma {:induction false} NoLimitNoCall(limiter: Limiter, calls: seq<Call>, key: string, limit: int, windowSeconds: int)
    requires Uniform(calls, key, limit, windowSeconds) && limit < 1
    ensures key !in After(limiter, calls) && History(limiter, calls, key) == []
  {
    if calls != [] {
      NoLimitNoCall(limiter, calls[..|calls| - 1], key, limit, windowSeconds);
    }
  }

  // --- when a limiter lets no more than its limit through ---

  /** In every run no interval of one window length sees more calls pass than the limit. */
  ghost predicate KeepsLimit(limiter: Limiter, limit: int, windowSeconds: int) {
    forall calls, key, from ::
      Uniform(calls, key, limit, windowSeconds) ==> KeptWithin(limiter, calls, key, limit, windowSeconds, from)
  }

  ghost predicate KeptWithin(limiter: Limiter, calls: seq<Call>, key: string, limit: int, windowSeconds: int, from: int)
    requires Uniform(calls, key, limit, windowSeconds)
  {
    GrantedWithin(History(limiter, calls, key), from, windowSeconds * 1000) <= if limit < 0 then 0 else limit
  }

  /** The clock-aligned limiter does so exactly if it lets nothing through, the other one also with a limit of one. */
  lemma KeepsLimitIff(limiter: Limiter, limit: int, windowSeconds: int)
    requires windowSeconds >= 1
    ensures KeepsLimit(limiter, limit, windowSeconds) <==> limit <= if limiter.Aligned? then 0 else 1
  {
    hide Uniform;
    if limit <= if limiter.Aligned? then 0 else 1 {
      forall calls, key, from | Uniform(calls, key, limit, windowSeconds)
        ensures KeptWithin(limiter, calls, key, limit, windowSeconds, from)
      {
        if limit < 1 {
          NoLimitNoCall(limiter, calls, key, limit, windowSeconds);
        } else {
          AnchoredSlidingBound(calls, key, limit, windowSeconds, from);
        }
      }
    } else {
      var calls;
      if limiter.Aligned? {
        calls := AlignedBoundIsReached(limit, windowSeconds);
      } else {
        calls := AnchoredBoundIsReached(limit, windowSeconds);
      }
      assert !KeptWithin(limiter, calls, "k", limit, windowSeconds, windowSeconds * 1000 - 1);
    }
  }
}
