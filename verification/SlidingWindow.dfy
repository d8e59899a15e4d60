/** SlidingWindowLimiter: the limiter of the REST routes, which prunes lazily,
    against one that keeps every hit it ever allowed. */
module SlidingWindow {

  type Key = string

  datatype Verdict = Verdict(allowed: bool, remaining: int, retryAfterMs: int)

  datatype Rule = Rule(windowMs: int, max: int)

  /** max is at least 1: with an empty ring a denial has no oldest hit to wait for. */
  type Limit = l: Rule | l.max >= 1 witness Rule(1, 1)

  // ---------- the limiter ----------

  /** Drops the leading hits at or before the cutoff. */
  function DropExpired(hits: seq<int>, cutoff: int): seq<int> {
    if hits != [] && hits[0] <= cutoff then DropExpired(hits[1..], cutoff) else hits
  }

  function PruneKey(hits: map<Key, seq<int>>, key: Key, cutoff: int): map<Key, seq<int>> {
    if key !in hits then hits
    else
      var rest := DropExpired(hits[key], cutoff);
      if rest == [] then hits - {key} else hits[key := rest]
  }

  function HitsOf(hits: map<Key, seq<int>>, key: Key): seq<int> {
    if key in hits then hits[key] else []
  }

  function Max(a: int, b: int): int { if a < b then b else a }

  function Check(l: Limit, hits: map<Key, seq<int>>, key: Key, now: int): (map<Key, seq<int>>, Verdict)
  {
    var pruned := PruneKey(hits, key, now - l.windowMs);
    var h := HitsOf(pruned, key);
    if |h| >= l.max then (pruned, Verdict(false, 0, Max(1, h[0] + l.windowMs - now)))
    else (pruned[key := h + [now]], Verdict(true, l.max - (|h| + 1), 0))
  }

  function SweepAll(hits: map<Key, seq<int>>, cutoff: int): map<Key, seq<int>> {
    map k | k in hits && DropExpired(hits[k], cutoff) != [] :: DropExpired(hits[k], cutoff)
  }

  class SlidingWindowLimiter {
    const rule: Limit
    var hits: map<Key, seq<int>>

    constructor (l: Limit)
      ensures rule == l && hits == map[]
    {
      rule := l;
      hits := map[];
    }

    method Prune(key: Key, now: int)
      modifies this
      ensures hits == PruneKey(old(hits), key, now - rule.windowMs)
    {
      if key !in hits {
        return;
      }
      var h := hits[key];
      var cutoff := now - rule.windowMs;
      var i := 0;
      while i < |h| && h[i] <= cutoff
        invariant i <= |h|
        invariant DropExpired(h[i..], cutoff) == DropExpired(h, cutoff)
      {
        assert h[i..][1..] == h[i + 1..];
        i := i + 1;
      }
      if i == |h| {
        hits := hits - {key};
      } else if i > 0 {
        hits := hits[key := h[i..]];
      } else {
        assert hits[key := h] == hits;
      }
    }

    method CheckHit(key: Key, now: int) returns (v: Verdict)
      modifies this
      ensures (hits, v) == Check(rule, old(hits), key, now)
    {
      Prune(key, now);
      var h := if key in hits then hits[key] else [];
      if |h| >= rule.max {
        var retryAfterMs := Max(1, h[0] + rule.windowMs - now);
        return Verdict(false, 0, retryAfterMs);
      }
      h := h + [now];
      hits := hits[key := h];
      v := Verdict(true, rule.max - |h|, 0);
    }

    /** The sweeper's pass over the keys, in whatever order the map lists them. */
    method Sweep(now: int)
      modifies this
      ensures hits == SweepAll(old(hits), now - rule.windowMs)
    {
      var keys := hits.Keys;
      ghost var was := hits;
      var cutoff := now - rule.windowMs;
      while keys != {}
        invariant keys <= hits.Keys && hits.Keys <= was.Keys
        invariant forall k :: k in was && k !in keys ==> (k in hits <==> DropExpired(was[k], cutoff) != [])
        invariant forall k :: k in hits ==> hits[k] == if k in keys then was[k] else DropExpired(was[k], cutoff)
        decreases keys
      {
        var k :| k in keys;
        Prune(k, now);
        keys := keys - {k};
      }
    }
  }

  // ---------- the limiter that forgets nothing ----------

  /** The hits inside the window that ends now. */
  function Recent(hist: seq<int>, cutoff: int): seq<int> {
    if hist == [] then []
    else Recent(hist[..|hist| - 1], cutoff) + (if hist[|hist| - 1] > cutoff then [hist[|hist| - 1]] else [])
  }

  function FullCheck(l: Limit, hist: map<Key, seq<int>>, key: Key, now: int): (map<Key, seq<int>>, Verdict)
  {
    var h := HitsOf(hist, key);
    var recent := Recent(h, now - l.windowMs);
    if |recent| >= l.max then (hist, Verdict(false, 0, recent[0] + l.windowMs - now))
    else (hist[key := h + [now]], Verdict(true, l.max - |recent| - 1, 0))
  }

  // ---------- runs ----------

  datatype Op = Hit(key: Key, at: int) | Sweep(at: int)

  predicate Ordered(ops: seq<Op>) {
    forall i, j :: 0 <= i < j < |ops| ==> ops[i].at <= ops[j].at
  }

  function Kept(l: Limit, ops: seq<Op>): map<Key, seq<int>>
  {
    if ops == [] then map[]
    else
      var before := Kept(l, ops[..|ops| - 1]);
      match ops[|ops| - 1]
      case Hit(key, at) => Check(l, before, key, at).0
      case Sweep(at) => SweepAll(before, at - l.windowMs)
  }

  function HistoryAfter(l: Limit, hist: map<Key, seq<int>>, op: Op): map<Key, seq<int>> {
    match op
    case Hit(key, at) => FullCheck(l, hist, key, at).0
    case Sweep(_) => hist
  }

  function History(l: Limit, ops: seq<Op>): map<Key, seq<int>> {
    if ops == [] then map[] else HistoryAfter(l, History(l, ops[..|ops| - 1]), ops[|ops| - 1])
  }

  // ---------- what one key's lists keep ----------

  predicate Sorted(h: seq<int>) {
    forall i, j :: 0 <= i < j < |h| ==> h[i] <= h[j]
  }

  /** Hit number i comes a whole window after hit number i - max. */
  predicate Spaced(l: Limit, h: seq<int>) {
    forall i :: l.max <= i < |h| ==> h[i - l.max] <= h[i] - l.windowMs
  }

  /** The ring is the end of the history, and what was dropped had expired by now. */
  predicate EndOf(l: Limit, ring: seq<int>, h: seq<int>, now: int) {
    && |ring| <= |h| && h[|h| - |ring|..] == ring
    && forall i :: 0 <= i < |h| - |ring| ==> h[i] <= now - l.windowMs
  }

  predicate KeyOk(l: Limit, ring: seq<int>, h: seq<int>, now: int) {
    Sorted(h) && Spaced(l, h) && EndOf(l, ring, h, now) && (forall i :: 0 <= i < |h| ==> h[i] <= now)
  }

  lemma {:induction false} DropIsSuffix(h: seq<int>, cutoff: int)
    ensures var d := DropExpired(h, cutoff);
            && |d| <= |h| && h[|h| - |d|..] == d
            && (forall i :: 0 <= i < |h| - |d| ==> h[i] <= cutoff)
            && (d != [] ==> d[0] > cutoff)
  {
    if h != [] && h[0] <= cutoff {
      DropIsSuffix(h[1..], cutoff);
      var d := DropExpired(h, cutoff);
      forall i | 0 <= i < |h| - |d| ensures h[i] <= cutoff {
        if i > 0 { assert h[1..][i - 1] == h[i]; }
      }
    }
  }

  /** On a sorted list the recent hits are a suffix. */
  lemma {:induction false} RecentIsSuffix(h: seq<int>, p: nat, cutoff: int)
    requires p <= |h|
    requires forall i :: 0 <= i < p ==> h[i] <= cutoff
    requires forall i :: p <= i < |h| ==> h[i] > cutoff
    ensures Recent(h, cutoff) == h[p..]
  {
    if h != [] {
      var n := |h| - 1;
      if p <= n {
        RecentIsSuffix(h[..n], p, cutoff);
        assert h[p..] == h[..n][p..] + [h[n]];
      } else {
        RecentIsSuffix(h[..n], n, cutoff);
      }
    }
  }

  lemma PrunedIsEnd(l: Limit, ring: seq<int>, h: seq<int>, last: int, now: int)
    requires EndOf(l, ring, h, last) && last <= now
    ensures EndOf(l, DropExpired(ring, now - l.windowMs), h, now)
  {
    var d := DropExpired(ring, now - l.windowMs);
    var q := |h| - |ring|;
    DropIsSuffix(ring, now - l.windowMs);
    assert h[|h| - |d|..] == ring[|ring| - |d|..];
    forall i | 0 <= i < |h| - |d| ensures h[i] <= now - l.windowMs {
      if i >= q { assert ring[i - q] == h[i]; }
    }
  }

  /** What is left of a sorted list once its expired front is gone. */
  lemma RestIsRecent(h: seq<int>, d: seq<int>, cutoff: int)
    requires Sorted(h) && |d| <= |h| && h[|h| - |d|..] == d
    requires forall i :: 0 <= i < |h| - |d| ==> h[i] <= cutoff
    requires d != [] ==> d[0] > cutoff
    ensures Recent(h, cutoff) == d
  {
    var p := |h| - |d|;
    if d != [] {
      assert h[p] == d[0];
      assert forall i :: p <= i < |h| ==> h[p] <= h[i];
    }
    RecentIsSuffix(h, p, cutoff);
  }

  /** Pruning a ring leaves exactly the recent hits of the whole history. */
  lemma PrunedIsRecent(l: Limit, ring: seq<int>, h: seq<int>, last: int, now: int)
    requires KeyOk(l, ring, h, last) && last <= now
    ensures DropExpired(ring, now - l.windowMs) == Recent(h, now - l.windowMs)
  {
    PrunedIsEnd(l, ring, h, last, now);
    DropIsSuffix(ring, now - l.windowMs);
    RestIsRecent(h, DropExpired(ring, now - l.windowMs), now - l.windowMs);
  }

  lemma PrunedKeyOk(l: Limit, ring: seq<int>, h: seq<int>, last: int, now: int)
    requires KeyOk(l, ring, h, last) && last <= now
    ensures KeyOk(l, DropExpired(ring, now - l.windowMs), h, now)
  {
    PrunedIsEnd(l, ring, h, last, now);
  }

  ghost predicate Agree(l: Limit, kept: map<Key, seq<int>>, hist: map<Key, seq<int>>, now: int) {
    forall key :: KeyOk(l, HitsOf(kept, key), HitsOf(hist, key), now)
  }

  lemma KeyLater(l: Limit, ring: seq<int>, h: seq<int>, now: int, later: int)
    requires KeyOk(l, ring, h, now) && now <= later
    ensures KeyOk(l, ring, h, later)
  {
  }

  lemma PruneOwn(l: Limit, kept: map<Key, seq<int>>, key: Key, now: int)
    ensures HitsOf(PruneKey(kept, key, now - l.windowMs), key) == DropExpired(HitsOf(kept, key), now - l.windowMs)
    ensures forall k :: k != key ==> HitsOf(Check(l, kept, key, now).0, k) == HitsOf(kept, k)
  {
  }

  function RingVerdict(l: Limit, ring: seq<int>, now: int): Verdict {
    if |ring| < l.max then Verdict(true, l.max - |ring| - 1, 0)
    else Verdict(false, 0, Max(1, ring[0] + l.windowMs - now))
  }

  function FullVerdict(l: Limit, recent: seq<int>, now: int): Verdict {
    if |recent| < l.max then Verdict(true, l.max - |recent| - 1, 0)
    else Verdict(false, 0, recent[0] + l.windowMs - now)
  }

  lemma CheckIs(l: Limit, kept: map<Key, seq<int>>, key: Key, now: int)
    ensures var ring := DropExpired(HitsOf(kept, key), now - l.windowMs);
            && HitsOf(Check(l, kept, key, now).0, key) == (if |ring| < l.max then ring + [now] else ring)
            && Check(l, kept, key, now).1 == RingVerdict(l, ring, now)
  {
  }

  lemma FullCheckIs(l: Limit, hist: map<Key, seq<int>>, key: Key, now: int)
    ensures var recent := Recent(HitsOf(hist, key), now - l.windowMs);
            && HitsOf(FullCheck(l, hist, key, now).0, key)
                == (if |recent| < l.max then HitsOf(hist, key) + [now] else HitsOf(hist, key))
            && FullCheck(l, hist, key, now).1 == FullVerdict(l, recent, now)
  {
  }

  lemma ListsAfter(l: Limit, ring: seq<int>, h: seq<int>, now: int)
    requires KeyOk(l, ring, h, now)
    ensures if |ring| < l.max then KeyOk(l, ring + [now], h + [now], now) else KeyOk(l, ring, h, now)
  {
  }

  lemma FirstAlive(ring: seq<int>, cutoff: int)
    requires DropExpired(ring, cutoff) != []
    ensures DropExpired(ring, cutoff)[0] > cutoff
  {
  }

  /** The verdict on an unexpired ring needs no lower bound on the wait. */
  lemma SameVerdict(l: Limit, hits: seq<int>, now: int)
    ensures var ring := DropExpired(hits, now - l.windowMs);
            RingVerdict(l, ring, now) == FullVerdict(l, ring, now)
  {
    if DropExpired(hits, now - l.windowMs) != [] {
      FirstAlive(hits, now - l.windowMs);
    }
  }

  lemma CheckOwnVerdict(l: Limit, kept: map<Key, seq<int>>, hist: map<Key, seq<int>>, last: int, key: Key, now: int)
    requires KeyOk(l, HitsOf(kept, key), HitsOf(hist, key), last) && last <= now
    ensures Check(l, kept, key, now).1 == FullVerdict(l, Recent(HitsOf(hist, key), now - l.windowMs), now)
  {
    CheckIs(l, kept, key, now);
    PrunedIsRecent(l, HitsOf(kept, key), HitsOf(hist, key), last, now);
    SameVerdict(l, HitsOf(kept, key), now);
  }

  lemma CheckOwnLists(l: Limit, kept: map<Key, seq<int>>, hist: map<Key, seq<int>>, last: int, key: Key, now: int)
    requires KeyOk(l, HitsOf(kept, key), HitsOf(hist, key), last) && last <= now
    ensures KeyOk(l, HitsOf(Check(l, kept, key, now).0, key), HitsOf(FullCheck(l, hist, key, now).0, key), now)
  {
    CheckIs(l, kept, key, now);
    FullCheckIs(l, hist, key, now);
    PrunedIsRecent(l, HitsOf(kept, key), HitsOf(hist, key), last, now);
    PrunedKeyOk(l, HitsOf(kept, key), HitsOf(hist, key), last, now);
    ListsAfter(l, DropExpired(HitsOf(kept, key), now - l.windowMs), HitsOf(hist, key), now);
  }

  lemma CheckAgrees(l: Limit, kept: map<Key, seq<int>>, hist: map<Key, seq<int>>, last: int, key: Key, now: int)
    requires Agree(l, kept, hist, last) && last <= now
    ensures Agree(l, Check(l, kept, key, now).0, FullCheck(l, hist, key, now).0, now)
  {
    var kept', hist' := Check(l, kept, key, now).0, FullCheck(l, hist, key, now).0;
    PruneOwn(l, kept, key, now);
    forall k ensures KeyOk(l, HitsOf(kept', k), HitsOf(hist', k), now) {
      if k == key {
        CheckOwnLists(l, kept, hist, last, key, now);
      } else {
        assert HitsOf(hist', k) == HitsOf(hist, k);
        KeyLater(l, HitsOf(kept, k), HitsOf(hist, k), last, now);
      }
    }
  }

  lemma SweepOwn(kept: map<Key, seq<int>>, cutoff: int, k: Key)
    ensures HitsOf(SweepAll(kept, cutoff), k) == DropExpired(HitsOf(kept, k), cutoff)
  {
  }

  lemma SweepKey(l: Limit, kept: map<Key, seq<int>>, hist: map<Key, seq<int>>, last: int, now: int, k: Key)
    requires KeyOk(l, HitsOf(kept, k), HitsOf(hist, k), last) && last <= now
    ensures KeyOk(l, HitsOf(SweepAll(kept, now - l.windowMs), k), HitsOf(hist, k), now)
  {
    SweepOwn(kept, now - l.windowMs, k);
    PrunedKeyOk(l, HitsOf(kept, k), HitsOf(hist, k), last, now);
  }

  lemma SweepAgrees(l: Limit, kept: map<Key, seq<int>>, hist: map<Key, seq<int>>, last: int, now: int)
    requires Agree(l, kept, hist, last) && last <= now
    ensures Agree(l, SweepAll(kept, now - l.windowMs), hist, now)
  {
    forall k
      ensures KeyOk(l, HitsOf(SweepAll(kept, now - l.windowMs), k), HitsOf(hist, k), now)
    {
      SweepKey(l, kept, hist, last, now, k);
    }
  }

  lemma {:induction false} RunAgrees(l: Limit, ops: seq<Op>, now: int)
    requires Ordered(ops) && (forall i :: 0 <= i < |ops| ==> ops[i].at <= now)
    ensures Agree(l, Kept(l, ops), History(l, ops), now)
  {
    if ops != [] {
      var n := |ops| - 1;
      RunAgrees(l, ops[..n], ops[n].at);
      match ops[n] {
        case Hit(key, at) => CheckAgrees(l, Kept(l, ops[..n]), History(l, ops[..n]), at, key, at);
        case Sweep(at) => SweepAgrees(l, Kept(l, ops[..n]), History(l, ops[..n]), at, at);
      }
      forall key ensures KeyOk(l, HitsOf(Kept(l, ops), key), HitsOf(History(l, ops), key), now) {
        KeyLater(l, HitsOf(Kept(l, ops), key), HitsOf(History(l, ops), key), ops[n].at, now);
      }
    }
  }

  // ---------- the theorems ----------

  /** Whatever hits and sweeps came before, in order of time, the next verdict is
      the one of the limiter that kept every allowed hit. */
  lemma VerdictRefines(l: Limit, ops: seq<Op>, key: Key, now: int)
    requires Ordered(ops) && (forall i :: 0 <= i < |ops| ==> ops[i].at <= now)
    ensures Check(l, Kept(l, ops), key, now).1 == FullCheck(l, History(l, ops), key, now).1
  {
    VerdictIs(l, ops, key, now);
    FullCheckIs(l, History(l, ops), key, now);
  }

  lemma VerdictIs(l: Limit, ops: seq<Op>, key: Key, now: int)
    requires Ordered(ops) && (forall i :: 0 <= i < |ops| ==> ops[i].at <= now)
    ensures KeyOk(l, HitsOf(Kept(l, ops), key), HitsOf(History(l, ops), key), now)
    ensures Check(l, Kept(l, ops), key, now).1
         == FullVerdict(l, Recent(HitsOf(History(l, ops), key), now - l.windowMs), now)
  {
    RunAgrees(l, ops, now);
    CheckOwnVerdict(l, Kept(l, ops), History(l, ops), now, key, now);
  }

  /** Allowed hits in the window (t - windowMs, t]. */
  function InWindow(l: Limit, h: seq<int>, t: int): nat {
    if h == [] then 0
    else InWindow(l, h[..|h| - 1], t) + (if t - l.windowMs < h[|h| - 1] <= t then 1 else 0)
  }

  lemma {:induction false} OutsideFirst(l: Limit, h: seq<int>, t: int, p: nat)
    requires p <= |h| && forall i :: 0 <= i < p ==> h[i] <= t - l.windowMs
    ensures InWindow(l, h, t) <= |h| - p
  {
    if h != [] {
      OutsideFirst(l, h[..|h| - 1], t, if p < |h| then p else |h| - 1);
    }
  }

  lemma {:induction false} WindowAtMost(l: Limit, h: seq<int>, t: int)
    requires Sorted(h) && Spaced(l, h)
    ensures InWindow(l, h, t) <= l.max
  {
    if h != [] {
      var n := |h| - 1;
      if t - l.windowMs < h[n] <= t {
        if n >= l.max {
          forall i | 0 <= i < n - l.max + 1 ensures h[i] <= t - l.windowMs {
            assert h[n - l.max] <= h[n] - l.windowMs;
          }
          OutsideFirst(l, h, t, n - l.max + 1);
        } else {
          OutsideFirst(l, h, t, 0);
        }
      } else {
        WindowAtMost(l, h[..n], t);
      }
    }
  }

  /** No window, wherever it ends, holds more than max allowed hits of a key. */
  lemma AnyWindowHoldsAtMostMax(l: Limit, ops: seq<Op>, key: Key, t: int)
    requires Ordered(ops)
    ensures InWindow(l, HitsOf(History(l, ops), key), t) <= l.max
  {
    var now := if ops == [] then 0 else ops[|ops| - 1].at;
    RunAgrees(l, ops, now);
    WindowAtMost(l, HitsOf(History(l, ops), key), t);
  }

  lemma {:induction false} RecentCount(l: Limit, h: seq<int>, t: int)
    requires forall i :: 0 <= i < |h| ==> h[i] <= t
    ensures |Recent(h, t - l.windowMs)| == InWindow(l, h, t)
  {
    if h != [] {
      RecentCount(l, h[..|h| - 1], t);
    }
  }

  /** In numbers: a hit is allowed exactly when fewer than max allowed hits of its key lie
      in the window that ends with it; it is told how many more fit, and only an allowed
      hit counts from then on. */
  lemma AllowedIffRoom(l: Limit, ops: seq<Op>, key: Key, now: int)
    requires Ordered(ops) && (forall i :: 0 <= i < |ops| ==> ops[i].at <= now)
    ensures var v, before := Check(l, Kept(l, ops), key, now).1, HitsOf(History(l, ops), key);
            var room := l.max - InWindow(l, before, now);
            && (v.allowed <==> room > 0)
            && v.remaining == (if room > 0 then room - 1 else 0)
            && (v.allowed <==> v.retryAfterMs == 0)
            && HitsOf(History(l, ops + [Hit(key, now)]), key) == (if v.allowed then before + [now] else before)
            && forall k :: k != key ==> HitsOf(History(l, ops + [Hit(key, now)]), k) == HitsOf(History(l, ops), k)
  {
    VerdictIs(l, ops, key, now);
    RecentCount(l, HitsOf(History(l, ops), key), now);
    AnyWindowHoldsAtMostMax(l, ops, key, now);
    if !Check(l, Kept(l, ops), key, now).1.allowed {
      DeniedWait(l, ops, key, now);
    }
    OneMoreHit(l, ops, key, now);
  }

  /** An allowed hit is remembered, and nothing else changes. */
  lemma OneMoreHit(l: Limit, ops: seq<Op>, key: Key, now: int)
    ensures var before, after := History(l, ops), History(l, ops + [Hit(key, now)]);
            && HitsOf(after, key) == (if |Recent(HitsOf(before, key), now - l.windowMs)| < l.max
                                      then HitsOf(before, key) + [now] else HitsOf(before, key))
            && forall k :: k != key ==> HitsOf(after, k) == HitsOf(before, k)
  {
    HistorySnoc(l, ops, Hit(key, now));
    FullCheckIs(l, History(l, ops), key, now);
  }

  /** No key is stored without a hit, and none with more than max. */
  lemma {:induction false} KeptIsSmall(l: Limit, ops: seq<Op>, key: Key)
    ensures key in Kept(l, ops) ==> 0 < |Kept(l, ops)[key]| <= l.max
  {
    if ops != [] {
      KeptIsSmall(l, ops[..|ops| - 1], key);
      DropIsSuffix(HitsOf(Kept(l, ops[..|ops| - 1]), key), ops[|ops| - 1].at - l.windowMs);
    }
  }

  /** After a sweep only keys that were hit within the window are stored. */
  lemma SweptIsRecent(l: Limit, ops: seq<Op>, now: int, key: Key)
    requires Ordered(ops) && (forall i :: 0 <= i < |ops| ==> ops[i].at <= now)
    ensures key in Kept(l, ops + [Sweep(now)]) <==> InWindow(l, HitsOf(History(l, ops), key), now) > 0
  {
    assert (ops + [Sweep(now)])[..|ops|] == ops;
    assert Kept(l, ops + [Sweep(now)]) == SweepAll(Kept(l, ops), now - l.windowMs);
    RunAgrees(l, ops, now);
    SweptKey(l, Kept(l, ops), HitsOf(History(l, ops), key), now, key);
  }

  lemma SweptKey(l: Limit, kept: map<Key, seq<int>>, h: seq<int>, now: int, key: Key)
    requires KeyOk(l, HitsOf(kept, key), h, now)
    ensures key in SweepAll(kept, now - l.windowMs) <==> InWindow(l, h, now) > 0
  {
    PrunedIsRecent(l, HitsOf(kept, key), h, now, now);
    RecentCount(l, h, now);
  }

  /** The history of a caller that a check at now denies. */
  predicate Denied(l: Limit, h: seq<int>, now: int) {
    && Sorted(h) && Spaced(l, h) && (forall i :: 0 <= i < |h| ==> h[i] <= now)
    && |Recent(h, now - l.windowMs)| >= l.max
  }

  /** When the oldest hit that counts leaves the window. */
  function FreeAt(l: Limit, h: seq<int>, now: int): int
    requires Denied(l, h, now)
  {
    Recent(h, now - l.windowMs)[0] + l.windowMs
  }

  /** A denied caller's wait. */
  lemma DeniedFacts(l: Limit, h: seq<int>, now: int)
    requires Denied(l, h, now)
    ensures |h| >= l.max && Recent(h, now - l.windowMs) == h[|h| - l.max..]
    ensures h[|h| - l.max] > now - l.windowMs
  {
    var p := Boundary(h, now - l.windowMs);
    RecentIsSuffix(h, p, now - l.windowMs);
    if |h| > l.max {
      assert h[|h| - 1 - l.max] <= h[|h| - 1] - l.windowMs;
    }
  }

  lemma {:induction false} Boundary(h: seq<int>, cutoff: int) returns (p: nat)
    requires Sorted(h)
    ensures p <= |h|
    ensures forall i :: 0 <= i < p ==> h[i] <= cutoff
    ensures forall i :: p <= i < |h| ==> h[i] > cutoff
  {
    if h == [] || h[|h| - 1] <= cutoff {
      p := |h|;
    } else {
      p := Boundary(h[..|h| - 1], cutoff);
    }
  }

  /** With the history of a denied caller unchanged, it is denied before
      now + retryAfterMs and allowed from then on. */
  lemma WaitIsExact(l: Limit, h: seq<int>, now: int, t: int)
    requires Denied(l, h, now) && now <= t
    ensures FreeAt(l, h, now) > now && (|Recent(h, t - l.windowMs)| < l.max <==> t >= FreeAt(l, h, now))
  {
    DeniedFacts(l, h, now);
    var p := Boundary(h, t - l.windowMs);
    RecentIsSuffix(h, p, t - l.windowMs);
  }

  predicate Quiet(ops: seq<Op>, key: Key, free: int) {
    forall i :: 0 <= i < |ops| && ops[i].Hit? && ops[i].key == key ==> ops[i].at < free
  }

  /** One operation during a denied caller's wait leaves its history alone. */
  lemma WaitingStep(l: Limit, hist: map<Key, seq<int>>, key: Key, now: int, op: Op)
    requires Denied(l, HitsOf(hist, key), now) && now <= op.at
    requires op.Hit? && op.key == key ==> op.at < FreeAt(l, HitsOf(hist, key), now)
    ensures HitsOf(HistoryAfter(l, hist, op), key) == HitsOf(hist, key)
  {
    WaitIsExact(l, HitsOf(hist, key), now, op.at);
  }

  /** Until a denied caller's wait is over, its history does not change. */
  lemma {:induction false} DeniedUntilFree(l: Limit, ops: seq<Op>, key: Key, now: int, more: seq<Op>)
    requires Denied(l, HitsOf(History(l, ops), key), now)
    requires Quiet(more, key, FreeAt(l, HitsOf(History(l, ops), key), now))
    requires forall i :: 0 <= i < |more| ==> now <= more[i].at
    ensures HitsOf(History(l, ops + more), key) == HitsOf(History(l, ops), key)
  {
    if more == [] {
      assert ops + more == ops;
    } else {
      var n := |more| - 1;
      DeniedUntilFree(l, ops, key, now, more[..n]);
      assert now <= more[n].at;
      WaitingStep(l, History(l, ops + more[..n]), key, now, more[n]);
      HistorySnoc(l, ops + more[..n], more[n]);
      assert (ops + more[..n]) + [more[n]] == ops + more;
    }
  }

  lemma HistorySnoc(l: Limit, ops: seq<Op>, op: Op)
    ensures History(l, ops + [op]) == HistoryAfter(l, History(l, ops), op)
  {
    assert (ops + [op])[..|ops|] == ops;
  }

  lemma OrderedPrefix(ops: seq<Op>, more: seq<Op>)
    requires Ordered(ops + more)
    ensures Ordered(ops)
  {
    assert forall i :: 0 <= i < |ops| ==> ops[i] == (ops + more)[i];
  }

  lemma AllowedIff(l: Limit, ops: seq<Op>, key: Key, t: int)
    requires Ordered(ops) && (forall i :: 0 <= i < |ops| ==> ops[i].at <= t)
    ensures Check(l, Kept(l, ops), key, t).1.allowed <==> |Recent(HitsOf(History(l, ops), key), t - l.windowMs)| < l.max
  {
    VerdictIs(l, ops, key, t);
  }

  lemma DeniedVerdict(l: Limit, ring: seq<int>, h: seq<int>, now: int, v: Verdict)
    requires KeyOk(l, ring, h, now) && v == FullVerdict(l, Recent(h, now - l.windowMs), now) && !v.allowed
    ensures Denied(l, h, now) && now + v.retryAfterMs == FreeAt(l, h, now)
  {
  }

  /** The wait of a denied caller, told from its history. */
  lemma DeniedWait(l: Limit, ops: seq<Op>, key: Key, now: int)
    requires Ordered(ops) && (forall i :: 0 <= i < |ops| ==> ops[i].at <= now)
    requires !Check(l, Kept(l, ops), key, now).1.allowed
    ensures var h := HitsOf(History(l, ops), key);
            var wait := Check(l, Kept(l, ops), key, now).1.retryAfterMs;
            Denied(l, h, now) && wait >= 1 && now + wait == FreeAt(l, h, now)
  {
    var h := HitsOf(History(l, ops), key);
    VerdictIs(l, ops, key, now);
    DeniedVerdict(l, HitsOf(Kept(l, ops), key), h, now, Check(l, Kept(l, ops), key, now).1);
    WaitIsExact(l, h, now, now);
  }

  /** retryAfterMs is exact: after a denial at now, with any other traffic in
      between, a check before now + retryAfterMs is denied, and the first check of
      that key from now + retryAfterMs on is allowed. It is never 0. */
  lemma RetryAfterIsExact(l: Limit, ops: seq<Op>, key: Key, now: int, more: seq<Op>, t: int)
    requires Ordered(ops + more)
    requires forall i :: 0 <= i < |ops| ==> ops[i].at <= now
    requires forall i :: 0 <= i < |more| ==> now <= more[i].at <= t
    requires now <= t
    requires !Check(l, Kept(l, ops), key, now).1.allowed
    requires Quiet(more, key, now + Check(l, Kept(l, ops), key, now).1.retryAfterMs)
    ensures var wait := Check(l, Kept(l, ops), key, now).1.retryAfterMs;
            wait >= 1 && (Check(l, Kept(l, ops + more), key, t).1.allowed <==> t >= now + wait)
  {
    OrderedPrefix(ops, more);
    DeniedWait(l, ops, key, now);
    DeniedUntilFree(l, ops, key, now, more);
    WaitIsExact(l, HitsOf(History(l, ops), key), now, t);
    AllowedIff(l, ops + more, key, t);
  }
}
