/**
 The in-process rate limiter and the ban ladder. Both keep a deque of times that forgets from
 its front; both are compared with a definition over the whole history that forgets nothing.
 */
module RateLimits {
  import opened Options

  // ---------------------------------------------------------------- times

  ghost predicate Sorted(ts: seq<real>) {
    forall i, j :: 0 <= i < j < |ts| ==> ts[i] <= ts[j]
  }

  // The deque after its popleft loop.
  function Cut(deque: seq<real>, cutoff: real): seq<real> {
    if deque != [] && deque[0] <= cutoff then Cut(deque[1..], cutoff) else deque
  }

  // The times after the cutoff, wherever they stand.
  function Recent(ts: seq<real>, cutoff: real): seq<real> {
    if ts == [] then []
    else Recent(ts[..|ts| - 1], cutoff) + (if ts[|ts| - 1] > cutoff then [ts[|ts| - 1]] else [])
  }

  // How many times fall into the interval (lo, hi].
  function CountIn(ts: seq<real>, lo: real, hi: real): nat {
    if ts == [] then 0
    else CountIn(ts[..|ts| - 1], lo, hi) + (if lo < ts[|ts| - 1] <= hi then 1 else 0)
  }

  ghost predicate UpTo(ts: seq<real>, hi: real) {
    forall i :: 0 <= i < |ts| ==> ts[i] <= hi
  }

  ghost predicate After(ts: seq<real>, lo: real) {
    forall i :: 0 <= i < |ts| ==> ts[i] > lo
  }

  lemma SortedExtends(ts: seq<real>, t: real)
    requires Sorted(ts) && UpTo(ts, t)
    ensures Sorted(ts + [t]) && UpTo(ts + [t], t)
  {
  }

  lemma SortedSplits(ts: seq<real>)
    requires Sorted(ts) && ts != []
    ensures Sorted(ts[..|ts| - 1]) && UpTo(ts[..|ts| - 1], ts[|ts| - 1]) && UpTo(ts, ts[|ts| - 1])
  {
  }

  lemma {:induction false} RecentSorted(ts: seq<real>, cutoff: real, hi: real)
    requires Sorted(ts) && UpTo(ts, hi)
    ensures Sorted(Recent(ts, cutoff)) && UpTo(Recent(ts, cutoff), hi)
    decreases |ts|
  {
    if ts != [] {
      SortedSplits(ts);
      RecentSorted(ts[..|ts| - 1], cutoff, ts[|ts| - 1]);
    }
  }

  lemma RecentSnoc(ts: seq<real>, t: real, cutoff: real)
    ensures Recent(ts + [t], cutoff) == Recent(ts, cutoff) + (if t > cutoff then [t] else [])
  {
    assert (ts + [t])[..|ts + [t]| - 1] == ts;
  }

  lemma CountSnoc(ts: seq<real>, t: real, lo: real, hi: real)
    ensures CountIn(ts + [t], lo, hi) == CountIn(ts, lo, hi) + (if lo < t <= hi then 1 else 0)
  {
    assert (ts + [t])[..|ts + [t]| - 1] == ts;
  }

  lemma {:induction false} RecentOfRecent(ts: seq<real>, c: real, d: real)
    requires c <= d
    ensures Recent(Recent(ts, c), d) == Recent(ts, d)
    decreases |ts|
  {
    if ts != [] {
      var front, t := ts[..|ts| - 1], ts[|ts| - 1];
      RecentOfRecent(front, c, d);
      RecentSnoc(Recent(front, c), t, d);
      if t <= c {
        assert Recent(ts, c) == Recent(front, c);
      }
    }
  }

  lemma {:induction false} RecentAll(ts: seq<real>, cutoff: real)
    requires After(ts, cutoff)
    ensures Recent(ts, cutoff) == ts
    decreases |ts|
  {
    if ts != [] {
      RecentAll(ts[..|ts| - 1], cutoff);
      assert ts == ts[..|ts| - 1] + [ts[|ts| - 1]];
    }
  }

  lemma {:induction false} RecentDropsFirst(ts: seq<real>, cutoff: real)
    requires ts != [] && ts[0] <= cutoff
    ensures Recent(ts, cutoff) == Recent(ts[1..], cutoff)
    decreases |ts|
  {
    if |ts| > 1 {
      RecentDropsFirst(ts[..|ts| - 1], cutoff);
      assert ts[..|ts| - 1][1..] == ts[1..][..|ts[1..]| - 1];
    }
  }

  // Forgetting from the front is filtering, as long as the times are in order.
  lemma {:induction false} CutIsRecent(ts: seq<real>, cutoff: real)
    requires Sorted(ts)
    ensures Cut(ts, cutoff) == Recent(ts, cutoff)
    decreases |ts|
  {
    if ts != [] && ts[0] <= cutoff {
      RecentDropsFirst(ts, cutoff);
      CutIsRecent(ts[1..], cutoff);
    } else {
      RecentAll(ts, cutoff);
    }
  }

  lemma {:induction false} CountIsRecent(ts: seq<real>, lo: real, hi: real)
    requires UpTo(ts, hi)
    ensures CountIn(ts, lo, hi) == |Recent(ts, lo)|
    decreases |ts|
  {
    if ts != [] {
      CountIsRecent(ts[..|ts| - 1], lo, hi);
    }
  }

  lemma {:induction false} CountShrinks(ts: seq<real>, lo: real, hi: real, lo': real)
    requires lo' <= lo
    ensures CountIn(ts, lo, hi) <= |Recent(ts, lo')|
    decreases |ts|
  {
    if ts != [] {
      CountShrinks(ts[..|ts| - 1], lo, hi, lo');
    }
  }

  // ---------------------------------------------------------------- the sliding window

  // What the code holds for a key, and the calls it let through.
  datatype Bucket = Bucket(deque: seq<real>, admitted: seq<real>)

  function Entered(b: Bucket, t: real, limit: nat, window: real): Bucket {
    var left := Cut(b.deque, t - window);
    if |left| >= limit then Bucket(left, b.admitted) else Bucket(left + [t], b.admitted + [t])
  }

  // The bucket after calls at any times.
  function BucketOf(calls: seq<real>, limit: nat, window: real): Bucket {
    if calls == [] then Bucket([], [])
    else Entered(BucketOf(calls[..|calls| - 1], limit, window), calls[|calls| - 1], limit, window)
  }

  function Admitted(calls: seq<real>, limit: nat, window: real): seq<real> {
    BucketOf(calls, limit, window).admitted
  }

  // The definition: a call is let through unless `limit` of all the calls let through so far
  // fall into the window that ends with it.
  function LetIn(all: seq<real>, t: real, limit: nat, window: real): seq<real> {
    if CountIn(all, t - window, t) < limit then all + [t] else all
  }

  function Allowed(calls: seq<real>, limit: nat, window: real): seq<real> {
    if calls == [] then []
    else LetIn(Allowed(calls[..|calls| - 1], limit, window), calls[|calls| - 1], limit, window)
  }

  lemma BucketSnoc(calls: seq<real>, t: real, limit: nat, window: real)
    ensures BucketOf(calls + [t], limit, window) == Entered(BucketOf(calls, limit, window), t, limit, window)
  {
    assert (calls + [t])[..|calls + [t]| - 1] == calls;
  }

  // Order, read off neighbours.
  ghost predicate Ordered(ts: seq<real>) {
    |ts| <= 1 || (ts[|ts| - 2] <= ts[|ts| - 1] && Ordered(ts[..|ts| - 1]))
  }

  ghost predicate EndsBy(ts: seq<real>, hi: real) {
    ts != [] ==> ts[|ts| - 1] <= hi
  }

  lemma {:induction false} OrderedIsSorted(ts: seq<real>, hi: real)
    requires Ordered(ts) && EndsBy(ts, hi)
    ensures Sorted(ts) && UpTo(ts, hi)
    decreases |ts|
  {
    if |ts| > 1 {
      OrderedIsSorted(ts[..|ts| - 1], ts[|ts| - 1]);
    }
  }

  lemma {:induction false} SortedIsOrdered(ts: seq<real>, hi: real)
    requires Sorted(ts) && UpTo(ts, hi)
    ensures Ordered(ts) && EndsBy(ts, hi)
    decreases |ts|
  {
    if |ts| > 1 {
      SortedSplits(ts);
      SortedIsOrdered(ts[..|ts| - 1], ts[|ts| - 1]);
    }
  }

  lemma OrderedSnoc(ts: seq<real>, t: real)
    ensures Ordered(ts + [t]) <==> Ordered(ts) && EndsBy(ts, t)
  {
    assert (ts + [t])[..|ts + [t]| - 1] == ts;
  }

  // If a deque is what is left of `all` after an earlier cutoff, popping leaves what is left
  // after the present one, and its length counts the window that ends now.
  lemma PopFinds(all: seq<real>, deque: seq<real>, c: real, cutoff: real, now: real)
    requires Ordered(all) && EndsBy(all, now) && c <= cutoff && deque == Recent(all, c)
    ensures Cut(deque, cutoff) == Recent(all, cutoff)
    ensures CountIn(all, cutoff, now) == |Cut(deque, cutoff)|
  {
    OrderedIsSorted(all, now);
    RecentSorted(all, c, now);
    CutIsRecent(deque, cutoff);
    RecentOfRecent(all, c, cutoff);
    CountIsRecent(all, cutoff, now);
  }

  // The bucket agrees with the definition: it let through the calls `all`, and its deque is
  // what is left of them after the cutoff of a call at time `now`.
  ghost predicate Refines(b: Bucket, all: seq<real>, now: real, window: real) {
    && b.admitted == all && b.deque == Recent(all, now - window)
    && Ordered(all) && EndsBy(all, now)
  }

  lemma EnteredRefines(b: Bucket, all: seq<real>, now: real, t: real, limit: nat, window: real)
    requires Refines(b, all, now, window) && now <= t && window > 0.0
    ensures Refines(Entered(b, t, limit, window), LetIn(all, t, limit, window), t, window)
    ensures CountIn(all, t - window, t) == |Cut(b.deque, t - window)|
  {
    PopFinds(all, b.deque, now - window, t - window, t);
    RecentSnoc(all, t, t - window);
    OrderedSnoc(all, t);
  }

  function LastOr(calls: seq<real>, t: real): real {
    if calls == [] then t else calls[|calls| - 1]
  }

  // For calls in order the code's deque refines the definition: it admits exactly the calls the
  // definition allows, and holds exactly those of the whole history still inside the window.
  lemma {:induction false} DequeRefinesHistory(calls: seq<real>, limit: nat, window: real, t: real)
    requires Ordered(calls) && window > 0.0
    ensures Refines(BucketOf(calls, limit, window), Allowed(calls, limit, window), LastOr(calls, t), window)
    decreases |calls|
  {
    if calls != [] {
      var before, last := calls[..|calls| - 1], calls[|calls| - 1];
      DequeRefinesHistory(before, limit, window, last);
      EnteredRefines(BucketOf(before, limit, window), Allowed(before, limit, window), LastOr(before, last), last,
          limit, window);
    }
  }

  // No interval (x - window, x] ever holds more than `limit` admitted calls of one key.
  lemma {:induction false} WindowBound(calls: seq<real>, limit: nat, window: real, x: real)
    requires Ordered(calls) && window > 0.0
    ensures CountIn(Allowed(calls, limit, window), x - window, x) <= limit
    decreases |calls|
  {
    if calls != [] {
      var before, t := calls[..|calls| - 1], calls[|calls| - 1];
      WindowBound(before, limit, window, x);
      DequeRefinesHistory(before, limit, window, t);
      RoomForOne(Allowed(before, limit, window), t, limit, window, x);
    }
  }

  lemma RoomForOne(all: seq<real>, t: real, limit: nat, window: real, x: real)
    requires Ordered(all) && EndsBy(all, t) && CountIn(all, x - window, x) <= limit
    ensures CountIn(LetIn(all, t, limit, window), x - window, x) <= limit
  {
    CountSnoc(all, t, x - window, x);
    if t <= x {
      OrderedIsSorted(all, t);
      CountIsRecent(all, t - window, t);
      CountShrinks(all, x - window, x, t - window);
    }
  }

  lemma EnteredAdmits(b: Bucket, all: seq<real>, now: real, t: real, limit: nat, window: real)
    requires Refines(b, all, now, window) && now <= t && window > 0.0 && CountIn(all, t - window, t) <= limit
    ensures Entered(b, t, limit, window).admitted == all + (if CountIn(all, t - window, t) == limit then [] else [t])
  {
    EnteredRefines(b, all, now, t, limit, window);
  }

  // A call is admitted exactly when its window has room, and refused only when it is exactly
  // full.
  lemma RefusedOnlyWhenFull(before: seq<real>, t: real, limit: nat, window: real)
    requires Ordered(before + [t]) && window > 0.0
    ensures var n := CountIn(Admitted(before, limit, window), t - window, t);
            && n <= limit
            && Admitted(before + [t], limit, window) ==
               Admitted(before, limit, window) + (if n == limit then [] else [t])
  {
    OrderedSnoc(before, t);
    DequeRefinesHistory(before, limit, window, t);
    WindowBound(before, limit, window, t);
    var b, all := BucketOf(before, limit, window), Allowed(before, limit, window);
    EnteredAdmits(b, all, LastOr(before, t), t, limit, window);
    BucketSnoc(before, t, limit, window);
  }

  // ---------------------------------------------------------------- calls out of order

  // The clock is read before the lock is taken, so a thread may enter with an older time than
  // the thread before it; never by more than `lag`.
  ghost predicate NearlySorted(calls: seq<real>, lag: real) {
    forall i, j :: 0 <= i < j < |calls| ==> calls[i] - lag <= calls[j]
  }

  // How many of the times fall into the window that ends at x.
  function InWindow(ts: seq<real>, x: real, window: real): nat {
    CountIn(ts, x - window, x)
  }

  ghost predicate Bounded(calls: seq<real>, limit: nat, window: real) {
    forall x: real :: InWindow(Admitted(calls, limit, window), x, window) <= limit
  }

  function Zeros(n: nat): seq<real> {
    if n == 0 then [] else Zeros(n - 1) + [0.0]
  }

  lemma EnterZero(z: seq<real>, limit: nat, window: real)
    requires |z| < limit && window > 0.0 && forall i :: 0 <= i < |z| ==> z[i] == 0.0
    ensures Entered(Bucket(z, z), 0.0, limit, window) == Bucket(z + [0.0], z + [0.0])
  {
    assert Cut(z, 0.0 - window) == z;
  }

  lemma {:induction false} ZerosFill(n: nat, limit: nat, window: real)
    requires n <= limit && window > 0.0
    ensures BucketOf(Zeros(n), limit, window) == Bucket(Zeros(n), Zeros(n))
    ensures |Zeros(n)| == n && forall i :: 0 <= i < n ==> Zeros(n)[i] == 0.0
  {
    if n > 0 {
      ZerosFill(n - 1, limit, window);
      EnterZero(Zeros(n - 1), limit, window);
      BucketSnoc(Zeros(n - 1), 0.0, limit, window);
    }
  }

  lemma {:induction false} CutAll(ts: seq<real>, cutoff: real)
    requires UpTo(ts, cutoff)
    ensures Cut(ts, cutoff) == []
    decreases |ts|
  {
    if ts != [] {
      CutAll(ts[1..], cutoff);
    }
  }

  lemma {:induction false} CountZeros(n: nat, lo: real, hi: real)
    requires lo < 0.0 <= hi
    ensures CountIn(Zeros(n), lo, hi) == n
  {
    if n > 0 {
      CountZeros(n - 1, lo, hi);
      CountSnoc(Zeros(n - 1), 0.0, lo, hi);
    }
  }

  // `limit` calls at 0, one a window later that pops them all, and a late one from just before.
  function LateCall(limit: nat, window: real, e: real): seq<real> {
    Zeros(limit) + [window] + [window - e]
  }

  lemma LateCallIsAdmitted(limit: nat, window: real, e: real)
    requires limit >= 2 && 0.0 < e < window
    ensures Admitted(LateCall(limit, window, e), limit, window) == LateCall(limit, window, e)
  {
    ZerosFill(limit, limit, window);
    CutAll(Zeros(limit), 0.0);
    BucketSnoc(Zeros(limit), window, limit, window);
    var two := Zeros(limit) + [window];
    assert BucketOf(two, limit, window) == Bucket([window], two);
    assert Cut([window], -e) == [window];
    BucketSnoc(two, window - e, limit, window);
  }

  lemma LateCallCount(limit: nat, window: real, e: real)
    requires 0.0 < e < window
    ensures CountIn(LateCall(limit, window, e), -e, window - e) == limit + 1
  {
    CountZeros(limit, -e, window - e);
    CountSnoc(Zeros(limit), window, -e, window - e);
    CountSnoc(Zeros(limit) + [window], window - e, -e, window - e);
  }

  lemma {:induction false} ZerosAre(n: nat, i: nat)
    ensures |Zeros(n)| == n && (i < n ==> Zeros(n)[i] == 0.0)
  {
    if n > 0 {
      ZerosAre(n - 1, i);
    }
  }

  lemma LateCallAt(limit: nat, window: real, e: real, i: nat)
    requires i < limit + 2
    ensures |LateCall(limit, window, e)| == limit + 2
    ensures LateCall(limit, window, e)[i] == if i < limit then 0.0 else if i == limit then window else window - e
  {
    ZerosAre(limit, i);
  }

  lemma LateCallLags(limit: nat, window: real, e: real)
    requires 0.0 < e < window
    ensures NearlySorted(LateCall(limit, window, e), e)
  {
    var calls := LateCall(limit, window, e);
    LateCallAt(limit, window, e, 0);
    forall i, j | 0 <= i < j < |calls| ensures calls[i] - e <= calls[j] {
      LateCallAt(limit, window, e, i);
      LateCallAt(limit, window, e, j);
    }
  }

  lemma LateCallBreaks(limit: nat, window: real, e: real)
    requires limit >= 2 && 0.0 < e < window
    ensures !Bounded(LateCall(limit, window, e), limit, window)
  {
    LateCallIsAdmitted(limit, window, e);
    LateCallCount(limit, window, e);
    assert window - e - window == -e;
    assert InWindow(Admitted(LateCall(limit, window, e), limit, window), window - e, window) > limit;
  }

  // Each admitted call comes at least a window after the one before it.
  ghost predicate Spaced(ts: seq<real>, window: real) {
    forall i, j :: 0 <= i < j < |ts| ==> ts[i] + window <= ts[j]
  }

  ghost predicate KeepsLast(b: Bucket, window: real) {
    && Spaced(b.admitted, window)
    && b.deque == if b.admitted == [] then [] else [b.admitted[|b.admitted| - 1]]
  }

  lemma EnterOne(b: Bucket, t: real, window: real)
    requires KeepsLast(b, window) && window > 0.0
    ensures KeepsLast(Entered(b, t, 1, window), window)
  {
    if b.admitted != [] {
      var last := b.admitted[|b.admitted| - 1];
      assert b.deque[1..] == [];
      assert Cut(b.deque, t - window) == if last <= t - window then [] else b.deque;
    }
  }

  lemma {:induction false} OneAtATime(calls: seq<real>, window: real)
    requires window > 0.0
    ensures KeepsLast(BucketOf(calls, 1, window), window)
    decreases |calls|
  {
    if calls != [] {
      OneAtATime(calls[..|calls| - 1], window);
      EnterOne(BucketOf(calls[..|calls| - 1], 1, window), calls[|calls| - 1], window);
    }
  }

  lemma {:induction false} SpacedBound(ts: seq<real>, window: real, x: real)
    requires Spaced(ts, window) && window > 0.0
    ensures CountIn(ts, x - window, x) <= 1
    ensures ts != [] && ts[|ts| - 1] <= x - window ==> CountIn(ts, x - window, x) == 0
    decreases |ts|
  {
    if |ts| > 0 {
      SpacedBound(ts[..|ts| - 1], window, x);
    }
  }

  lemma {:induction false} NoneAdmitted(calls: seq<real>, window: real)
    ensures Admitted(calls, 0, window) == []
    decreases |calls|
  {
    if calls != [] {
      NoneAdmitted(calls[..|calls| - 1], window);
    }
  }

  lemma InOrderIsBounded(calls: seq<real>, limit: nat, window: real, x: real)
    requires window > 0.0 && (Ordered(calls) || limit <= 1)
    ensures InWindow(Admitted(calls, limit, window), x, window) <= limit
  {
    if limit == 0 {
      NoneAdmitted(calls, window);
    } else if limit == 1 {
      OneAtATime(calls, window);
      SpacedBound(Admitted(calls, 1, window), window, x);
    } else {
      DequeRefinesHistory(calls, limit, window, x);
      WindowBound(calls, limit, window, x);
    }
  }

  lemma {:induction false} StepsForward(calls: seq<real>)
    requires NearlySorted(calls, 0.0)
    ensures Ordered(calls)
    decreases |calls|
  {
    if |calls| > 1 {
      assert calls[|calls| - 2] <= calls[|calls| - 1];
      StepsForward(calls[..|calls| - 1]);
    }
  }

  // The bound holds for all calls that step back by at most `lag` exactly when no call steps
  // back, or the limit is one or none.
  lemma BoundedExactly(limit: nat, window: real, lag: real)
    requires window > 0.0 && lag >= 0.0
    ensures (forall calls :: NearlySorted(calls, lag) ==> Bounded(calls, limit, window)) <==> lag == 0.0 || limit <= 1
  {
    if lag == 0.0 || limit <= 1 {
      forall calls | NearlySorted(calls, lag) ensures Bounded(calls, limit, window) {
        if lag == 0.0 {
          StepsForward(calls);
        }
        forall x: real ensures InWindow(Admitted(calls, limit, window), x, window) <= limit {
          InOrderIsBounded(calls, limit, window, x);
        }
      }
    } else {
      var e := if lag < window / 2.0 then lag else window / 2.0;
      LateCallLags(limit, window, e);
      LateCallBreaks(limit, window, e);
      assert NearlySorted(LateCall(limit, window, e), lag);
    }
  }

  // A defaultdict's lookup.
  function Entry(m: map<string, seq<real>>, key: string): seq<real> {
    if key in m then m[key] else []
  }

  // Every key's deque is the one its calls lead to.
  ghost predicate Kept(hits: map<string, seq<real>>, calls: map<string, seq<real>>, limit: nat, window: real) {
    hits.Keys == calls.Keys && forall k :: k in hits ==> IsDequeOf(hits[k], calls[k], limit, window)
  }

  ghost predicate IsDequeOf(deque: seq<real>, calls: seq<real>, limit: nat, window: real) {
    deque == BucketOf(calls, limit, window).deque
  }

  lemma KeptUpdate(hits: map<string, seq<real>>, calls: map<string, seq<real>>, key: string,
                   deque: seq<real>, past: seq<real>, limit: nat, window: real)
    requires Kept(hits, calls, limit, window) && IsDequeOf(deque, past, limit, window)
    ensures Kept(hits[key := deque], calls[key := past], limit, window)
  {
  }

  lemma AnswerKeeps(hits: map<string, seq<real>>, calls: map<string, seq<real>>, key: string, now: real,
                    left: seq<real>, limit: nat, window: real)
    requires Kept(hits, calls, limit, window) && window > 0.0 && left == Cut(Entry(hits, key), now - window)
    ensures var ok := |left| < limit;
            var deque, past := if ok then left + [now] else left, Entry(calls, key);
            && Kept(hits[key := deque], calls[key := past + [now]], limit, window)
            && Answered(past, now, ok, deque, limit, window)
  {
    var past := Entry(calls, key);
    assert IsDequeOf(Entry(hits, key), past, limit, window);
    OneMoreCall(past, now, limit, window, left);
    KeptUpdate(hits, calls, key, if |left| < limit then left + [now] else left, past + [now], limit, window);
  }

  class SlidingWindowLimiter {
    const limit: nat
    const window: real
    var hits: map<string, seq<real>>
    // Every call of every key so far.
    ghost var calls: map<string, seq<real>>

    ghost predicate Valid()
      reads this
    {
      limit >= 1 && window >= 1.0 && Kept(hits, calls, limit, window)
    }

    ghost function CallsOf(key: string): seq<real>
      reads this
    {
      Entry(calls, key)
    }

    constructor (limit: int, windowSeconds: int)
      ensures Valid() && calls == map[]
      ensures this.limit == (if limit > 1 then limit else 1)
          && window == (if windowSeconds > 1 then windowSeconds else 1) as real
    {
      this.limit := if limit > 1 then limit else 1;
      this.window := (if windowSeconds > 1 then windowSeconds else 1) as real;
      hits, calls := map[], map[];
    }

    // The popleft loop.
    static method PopOld(deque: seq<real>, cutoff: real) returns (bucket: seq<real>)
      ensures bucket == Cut(deque, cutoff)
    {
      bucket := deque;
      while bucket != [] && bucket[0] <= cutoff
        invariant Cut(bucket, cutoff) == Cut(deque, cutoff)
        decreases |bucket|
      {
        bucket := bucket[1..];
      }
    }

    method Allow(key: string, now: real) returns (ok: bool, ghost deque: seq<real>)
      requires Valid()
      modifies this
      ensures Valid() && calls == old(calls)[key := old(CallsOf(key)) + [now]] && hits == old(hits)[key := deque]
      ensures Answered(old(CallsOf(key)), now, ok, deque, limit, window)
    {
      var bucket := PopOld(Entry(hits, key), now - window);
      AnswerKeeps(hits, calls, key, now, bucket, limit, window);
      ok := |bucket| < limit;
      if ok {
        bucket := bucket + [now];
      }
      deque := bucket;
      hits, calls := hits[key := bucket], calls[key := CallsOf(key) + [now]];
    }
  }

  // A call at time `now` after the calls `past` was answered `ok` and left `deque` behind: the
  // call is admitted iff answered ok, and for calls in order it is answered ok iff fewer than
  // `limit` admitted calls lie in the window that ends now, and the deque holds just the
  // admitted ones of that window.
  ghost predicate Answered(past: seq<real>, now: real, ok: bool, deque: seq<real>, limit: nat, window: real) {
    var all := Allowed(past, limit, window);
    && deque == BucketOf(past + [now], limit, window).deque
    && Admitted(past + [now], limit, window) == Admitted(past, limit, window) + (if ok then [now] else [])
    && (Ordered(past + [now]) ==>
          && (ok <==> CountIn(all, now - window, now) < limit)
          && deque == Recent(all + (if ok then [now] else []), now - window))
  }

  lemma OneMoreCall(past: seq<real>, now: real, limit: nat, window: real, left: seq<real>)
    requires window > 0.0 && left == Cut(BucketOf(past, limit, window).deque, now - window)
    ensures Answered(past, now, |left| < limit, if |left| < limit then left + [now] else left, limit, window)
  {
    BucketSnoc(past, now, limit, window);
    OrderedSnoc(past, now);
    if Ordered(past + [now]) {
      DequeRefinesHistory(past, limit, window, now);
      EnteredRefines(BucketOf(past, limit, window), Allowed(past, limit, window), LastOr(past, now), now, limit,
          window);
    }
  }
}
