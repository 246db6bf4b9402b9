/** The choice of video frames: indexes spread over a sequence, and time stamps over a clip. */
module FrameSampling {
  import opened Arithmetic

  // ---------------------------------------------------------------- rounding

  // x / d rounded to the nearest integer, a tie to the even one.
  function RoundHalfEven(x: nat, d: nat): nat
    requires d > 0
  {
    var q, r := x / d, x % d;
    if 2 * r < d || (2 * r == d && q % 2 == 0) then q else q + 1
  }

  // d * q and d * r are within half a d of x: q is a nearest integer to x / d.
  ghost predicate Near(x: int, d: int, q: int) {
    2 * x - d <= 2 * (d * q) <= 2 * x + d
  }

  lemma RoundIsNearest(x: nat, d: nat)
    requires d > 0
    ensures Near(x, d, RoundHalfEven(x, d))
    ensures 2 * (d * RoundHalfEven(x, d)) == 2 * x - d || 2 * (d * RoundHalfEven(x, d)) == 2 * x + d ==>
              RoundHalfEven(x, d) % 2 == 0
  {
    var q, r := x / d, x % d;
    assert x == d * q + r;
    assert d * (q + 1) == d * q + d;
  }

  lemma MulMonotone(d: int, a: int, b: int)
    requires 0 <= d && a <= b
    ensures d * a <= d * b
  {
    assert d * (b - a) >= 0;
    assert d * (b - a) == d * b - d * a;
  }

  // Nearest integers of values more than one apart differ.
  lemma NearSeparates(x: int, y: int, d: int, a: int, b: int)
    requires d > 0 && x + d < y && Near(x, d, a) && Near(y, d, b)
    ensures a < b
  {
    if b <= a {
      MulMonotone(d, b, a);
    }
  }

  lemma NearOfMultiple(k: int, d: int, a: int)
    requires d > 0 && Near(k * d, d, a)
    ensures 2 * (a - k) <= 1 && 2 * (k - a) <= 1
  {
    var e := a - k;
    assert d * a == k * d + d * e;
    if e >= 1 {
      MulMonotone(d, 1, e);
    } else if e <= -1 {
      MulMonotone(d, e, -1);
    }
  }

  // ---------------------------------------------------------------- spread indexes

  predicate Increasing(s: seq<int>) {
    forall i, j :: 0 <= i < j < |s| ==> s[i] < s[j]
  }

  // The i-th of `limit` positions spread evenly from 0 to total - 1.
  function SpreadIndex(total: nat, limit: nat, i: nat): nat
    requires limit >= 2 && total >= 1
  {
    RoundHalfEven(i * (total - 1), limit - 1)
  }

  lemma SpreadIsNear(total: nat, limit: nat, i: nat)
    requires total >= 1 && limit >= 2
    ensures Near(i * (total - 1), limit - 1, SpreadIndex(total, limit, i))
  {
    RoundIsNearest(i * (total - 1), limit - 1);
  }

  lemma StepsSeparate(n: int, d: int, i: int, j: int, a: int, b: int)
    requires n > d >= 1 && i < j && Near(i * n, d, a) && Near(j * n, d, b)
    ensures a < b
  {
    MulMonotone(n, i + 1, j);
    var x, y := i * n, j * n;
    assert n * (i + 1) == x + n && n * j == y;
    NearSeparates(x, y, d, a, b);
  }

  lemma SpreadIncreases(total: nat, limit: nat, i: nat, j: nat)
    requires total > limit >= 2 && i < j
    ensures SpreadIndex(total, limit, i) < SpreadIndex(total, limit, j)
  {
    SpreadIsNear(total, limit, i);
    SpreadIsNear(total, limit, j);
    StepsSeparate(total - 1, limit - 1, i, j, SpreadIndex(total, limit, i), SpreadIndex(total, limit, j));
  }

  lemma SpreadEnds(total: nat, limit: nat)
    requires total >= 1 && limit >= 2
    ensures SpreadIndex(total, limit, 0) == 0 && SpreadIndex(total, limit, limit - 1) == total - 1
  {
    SpreadIsNear(total, limit, 0);
    NearOfMultiple(0, limit - 1, SpreadIndex(total, limit, 0));
    SpreadIsNear(total, limit, limit - 1);
    assert (limit - 1) * (total - 1) == (total - 1) * (limit - 1);
    NearOfMultiple(total - 1, limit - 1, SpreadIndex(total, limit, limit - 1));
  }

  // The backfill loop: append the first missing index until there are enough.
  method Backfill(picks: seq<int>, total: int, limit: int) returns (filled: seq<int>)
    ensures picks <= filled
    ensures |picks| >= limit ==> filled == picks
  {
    filled := picks;
    var found := true;
    while |filled| < limit && found
      invariant picks <= filled
      invariant |picks| >= limit ==> filled == picks
      decreases limit - |filled|, found
    {
      var index := 0;
      while index < total && index in filled {
        index := index + 1;
      }
      found := index < total;
      if found {
        filled := filled + [index];
      }
    }
  }

  function Insert(x: int, s: seq<int>): seq<int> {
    if s == [] || x <= s[0] then [x] + s else [s[0]] + Insert(x, s[1..])
  }

  function Sort(s: seq<int>): seq<int> {
    if s == [] then [] else Insert(s[0], Sort(s[1..]))
  }

  lemma {:induction false} SortOfIncreasing(s: seq<int>)
    requires Increasing(s)
    ensures Sort(s) == s
    decreases |s|
  {
    if s != [] {
      SortOfIncreasing(s[1..]);
      assert s == [s[0]] + s[1..];
    }
  }

  ghost predicate IsEven(picks: seq<int>, total: nat, limit: nat)
    requires total >= 1 && limit >= 2
  {
    forall k: nat :: k < |picks| ==> picks[k] == SpreadIndex(total, limit, k)
  }

  lemma EvenIsIncreasing(picks: seq<int>, total: nat, limit: nat)
    requires total > limit >= 2 && |picks| == limit && IsEven(picks, total, limit)
    ensures Increasing(picks) && picks[0] == 0 && picks[limit - 1] == total - 1
    ensures forall i :: 0 <= i < limit ==> 0 <= picks[i] < total
  {
    SpreadEnds(total, limit);
    forall i, j | 0 <= i < j < |picks| ensures picks[i] < picks[j] {
      SpreadIncreases(total, limit, i, j);
    }
  }

  // The first loop: round each position, and drop an index equal to the one before it.
  method EvenPicks(total: nat, limit: nat) returns (picks: seq<int>)
    requires total > limit >= 2
    ensures |picks| == limit && IsEven(picks, total, limit)
  {
    picks := [];
    for i := 0 to limit
      invariant |picks| == i && IsEven(picks, total, limit)
    {
      var index := SpreadIndex(total, limit, i);
      if i > 0 {
        SpreadIncreases(total, limit, i - 1, i);
      }
      if picks == [] || picks[|picks| - 1] != index {
        picks := picks + [index];
      }
    }
  }

  // Backfill, sort, cut to size: nothing is left to do for increasing picks that are enough.
  method Completed(picks: seq<int>, total: int, limit: nat) returns (indexes: seq<int>)
    requires Increasing(picks) && |picks| == limit
    ensures indexes == picks
  {
    var filled := Backfill(picks, total, limit);
    SortOfIncreasing(filled);
    indexes := Sort(filled)[..limit];
  }

  // For any arguments the indexes are strictly increasing, inside the sequence, and as many as
  // can be had; two or more of them reach from the first to the last; and when there is a
  // choice, each is the nearest integer to its exact position. The backfill never adds any.
  method SelectSpreadFrameIndexes(total: int, limit: int) returns (indexes: seq<int>)
    ensures Increasing(indexes)
    ensures forall i :: 0 <= i < |indexes| ==> 0 <= indexes[i] < total
    ensures |indexes| == Max(0, Min(total, limit))
    ensures |indexes| >= 1 ==> indexes[0] == 0
    ensures |indexes| >= 2 ==> indexes[|indexes| - 1] == total - 1
    ensures total > limit >= 2 ==> IsEven(indexes, total, limit)
  {
    if total <= 0 || limit <= 0 {
      return [];
    }
    if total <= limit {
      return seq(total, i => i);
    }
    if limit == 1 {
      return [0];
    }
    var picks := EvenPicks(total, limit);
    EvenIsIncreasing(picks, total, limit);
    indexes := Completed(picks, total, limit);
  }

  // ---------------------------------------------------------------- overlay time stamps

  const MAX_VIDEO_FRAMES: int := 32
  const MIN_OVERLAY_INTERVAL: real := 1.5

  function MaxReal(a: real, b: real): real {
    if a > b then a else b
  }

  function MinReal(a: real, b: real): real {
    if a < b then a else b
  }

  function Distance(a: real, b: real): real {
    if a > b then a - b else b - a
  }

  function Frames(maxFrames: int): int {
    Max(1, Min(maxFrames, MAX_VIDEO_FRAMES))
  }

  function OverlayFrameInterval(duration: real, maxFrames: int): real {
    MaxReal(MIN_OVERLAY_INTERVAL, MaxReal(duration, 1.0) / Frames(maxFrames) as real)
  }

  // The value rounded to milliseconds, a tie to the even one.
  function Round3(x: real): real {
    var f := (x * 1000.0).Floor;
    var rest := x * 1000.0 - f as real;
    (if rest < 0.5 || (rest == 0.5 && f % 2 == 0) then f else f + 1) as real / 1000.0
  }

  lemma Round3Near(x: real)
    ensures -0.0005 <= Round3(x) - x <= 0.0005
  {
  }

  // When the k-th sample is taken, before rounding.
  function Tick(start: real, interval: real, k: nat): real {
    if k == 0 then start else Tick(start, interval, k - 1) + interval
  }

  lemma {:induction false} TickIsLinear(start: real, interval: real, k: nat)
    ensures Tick(start, interval, k) == start + k as real * interval
    decreases k
  {
    if k > 0 {
      TickIsLinear(start, interval, k - 1);
      var j := (k - 1) as real;
      assert k as real == j + 1.0;
      assert (j + 1.0) * interval == j * interval + interval;
    }
  }

  // What the choice of the interval guarantees: it is no shorter than 1.5 s, as many of them
  // as there are frames reach beyond the clip, and a single frame's interval is the whole clip.
  ghost predicate Reaches(duration: real, maxFrames: int, start: real, interval: real) {
    && interval >= MIN_OVERLAY_INTERVAL
    && Tick(start, interval, Frames(maxFrames)) >= start + duration
    && (maxFrames == 1 ==> interval >= duration)
  }

  // The interval is the larger of 1.5 s and the clip (of one second at least) divided by the
  // frames, of which there are between 1 and 32: it is no longer than either requires.
  lemma IntervalExactly(duration: real, maxFrames: int)
    ensures var frames := if maxFrames < 1 then 1 else if maxFrames > 32 then 32 else maxFrames;
            var clip := if duration > 1.0 then duration else 1.0;
            var interval := OverlayFrameInterval(duration, maxFrames);
            && interval >= 1.5 && frames as real * interval >= clip
            && (interval == 1.5 || frames as real * interval == clip)
  {
    var n := Frames(maxFrames) as real;
    var clip := MaxReal(duration, 1.0);
    FramesCover(clip, n, OverlayFrameInterval(duration, maxFrames));
    assert n * (clip / n) == clip;
  }

  lemma FramesCover(duration: real, n: real, interval: real)
    requires n > 0.0 && interval >= duration / n
    ensures n * interval >= duration
  {
    var exact := duration / n;
    assert n * exact == duration;
    RealMulMonotone(n, exact, interval);
  }

  lemma IntervalReaches(duration: real, maxFrames: int, start: real)
    requires duration >= 1.0
    ensures Reaches(duration, maxFrames, start, OverlayFrameInterval(duration, maxFrames))
  {
    var interval := OverlayFrameInterval(duration, maxFrames);
    FramesCover(duration, Frames(maxFrames) as real, interval);
    TickIsLinear(start, interval, Frames(maxFrames));
  }

  lemma RealMulMonotone(n: real, a: real, b: real)
    requires n >= 0.0 && a <= b
    ensures n * a <= n * b
  {
    assert n * (b - a) >= 0.0;
    assert n * (b - a) == n * b - n * a;
  }

  // Stamps inside the clip, more than 0.2 s apart.
  ghost predicate Spaced(ts: seq<real>, duration: real) {
    && (forall i :: 0 <= i < |ts| ==> 0.0 <= ts[i] <= duration - 0.05)
    && (forall i :: 0 < i < |ts| ==> ts[i] - ts[i - 1] > 0.2)
  }

  // No stretch of the clip is left out for longer than the interval allows.
  ghost predicate Tight(ts: seq<real>, duration: real, interval: real) {
    && ts != []
    && ts[0] <= interval
    && duration - ts[|ts| - 1] <= interval
    && (forall i :: 0 < i < |ts| ==> ts[i] - ts[i - 1] <= 2.0 * interval)
  }

  // Some stamp lies within one interval of x.
  ghost predicate CoveredBy(ts: seq<real>, x: real, interval: real) {
    exists i :: 0 <= i < |ts| && Distance(ts[i], x) <= interval
  }

  lemma {:induction false} TightCovers(ts: seq<real>, duration: real, interval: real, x: real) returns (i: nat)
    requires Tight(ts, duration, interval) && 0.0 <= x <= duration && interval >= 0.0
    ensures i < |ts| && Distance(ts[i], x) <= interval
  {
    i := 0;
    while i + 1 < |ts| && ts[i + 1] <= x
      invariant i < |ts| && (i > 0 ==> ts[i] <= x)
    {
      i := i + 1;
    }
    if i + 1 < |ts| && ts[i] <= x && ts[i + 1] - x < x - ts[i] {
      i := i + 1;
    }
  }

  ghost predicate Sampled(times: seq<real>, start: real, interval: real, duration: real) {
    && times != []
    && (forall k :: 0 <= k < |times| ==>
          times[k] == Round3(Tick(start, interval, k)) && Tick(start, interval, k) < duration - 0.12)
  }

  // No more samples than frames, because as many ticks as frames reach beyond the clip.
  lemma SamplesFit(times: seq<real>, duration: real, maxFrames: int, start: real, interval: real)
    requires Sampled(times, start, interval, duration) && Reaches(duration, maxFrames, start, interval) && start >= 0.0
    ensures |times| <= Frames(maxFrames)
    ensures |times| == Frames(maxFrames) ==> Tick(start, interval, |times|) >= duration
  {
    assert forall k :: 0 <= k < |times| ==> Tick(start, interval, k) < duration - 0.12;
  }

  // The sampling loop. It ends because the clip does, never short of it.
  method SampleTimes(duration: real, maxFrames: int, start: real, interval: real) returns (times: seq<real>)
    requires duration >= 1.0 && Reaches(duration, maxFrames, start, interval)
    requires 0.2 <= start <= 1.2 && start < duration - 0.12
    ensures maxFrames < 1 ==> times == []
    ensures maxFrames >= 1 ==>
              && Sampled(times, start, interval, duration)
              && |times| <= maxFrames
              && Tick(start, interval, |times|) >= duration - 0.12
  {
    times := [];
    var t := start;
    while |times| < maxFrames && t < duration - 0.12
      invariant t == Tick(start, interval, |times|)
      invariant |times| <= Max(0, maxFrames)
      invariant times == [] || Sampled(times, start, interval, duration)
      decreases maxFrames - |times|
    {
      times := times + [Round3(t)];
      t := t + interval;
    }
    if times != [] {
      SamplesFit(times, duration, maxFrames, start, interval);
    }
  }

  lemma {:induction false} TickMonotone(start: real, interval: real, j: nat, k: nat)
    requires j <= k && interval >= 0.0
    ensures Tick(start, interval, j) <= Tick(start, interval, k)
    decreases k - j
  {
    if j < k {
      TickMonotone(start, interval, j, k - 1);
    }
  }

  // The last stamp goes to the end of the clip, appended if there is room, else in place of the
  // last sample.
  function WithLast(times: seq<real>, last: real, maxFrames: int, interval: real): seq<real>
    requires times != []
  {
    if Distance(times[|times| - 1], last) > interval * 0.45 then
      if |times| < maxFrames then times + [last] else times[|times| - 1 := last]
    else times
  }

  // The samples seen without the ticks they come from.
  ghost predicate Even(times: seq<real>, interval: real, duration: real) {
    && times != []
    && times[0] <= 1.2005
    && times[|times| - 1] >= duration - 0.1205 - interval
    && (forall k :: 0 <= k < |times| ==> 0.1995 <= times[k] <= duration - 0.1195)
    && (forall k :: 0 < k < |times| ==> interval - 0.001 <= times[k] - times[k - 1] <= interval + 0.001)
  }

  lemma SampledBounds(times: seq<real>, start: real, interval: real, duration: real, k: nat)
    requires Sampled(times, start, interval, duration) && k < |times| && interval >= 0.0
    ensures start - 0.0005 <= times[k] <= duration - 0.1195
    ensures -0.0005 <= times[k] - Tick(start, interval, k) <= 0.0005
  {
    Round3Near(Tick(start, interval, k));
    TickMonotone(start, interval, 0, k);
  }

  lemma SampledIsEven(times: seq<real>, start: real, interval: real, duration: real)
    requires Sampled(times, start, interval, duration) && interval >= 0.0 && 0.2 <= start <= 1.2
    requires Tick(start, interval, |times|) >= duration - 0.12
    ensures Even(times, interval, duration)
  {
    forall k | 0 <= k < |times|
      ensures 0.1995 <= times[k] <= duration - 0.1195
      ensures k > 0 ==> interval - 0.001 <= times[k] - times[k - 1] <= interval + 0.001
    {
      SampledBounds(times, start, interval, duration, k);
      if k > 0 {
        SampledBounds(times, start, interval, duration, k - 1);
      }
    }
    SampledBounds(times, start, interval, duration, 0);
    SampledBounds(times, start, interval, duration, |times| - 1);
  }

  lemma AppendFits(times: seq<real>, duration: real, interval: real, last: real)
    requires duration >= 1.0 && interval >= 1.5 && Even(times, interval, duration)
    requires -0.0005 <= last - (duration - 0.35) <= 0.0005 && Distance(times[|times| - 1], last) > interval * 0.45
    ensures Spaced(times + [last], duration) && Tight(times + [last], duration, interval)
  {
    var ts := times + [last];
    forall i | 0 < i < |ts|
      ensures 0.2 < ts[i] - ts[i - 1] <= 2.0 * interval
    {
      assert i < |times| ==> ts[i] == times[i] && ts[i - 1] == times[i - 1];
    }
  }

  lemma ReplaceFits(times: seq<real>, duration: real, interval: real, last: real)
    requires duration >= 1.0 && interval >= 1.5 && Even(times, interval, duration)
    requires -0.0005 <= last - (duration - 0.35) <= 0.0005 && Distance(times[|times| - 1], last) > interval * 0.45
    requires |times| == 1 ==> interval >= duration
    ensures var ts := times[|times| - 1 := last]; Spaced(ts, duration) && Tight(ts, duration, interval)
  {
  }

  // The stamps of a clip: the first sample, then one every interval to the millisecond, and at
  // the end a stamp at 0.35 s before the clip's, or a sample less than 0.45 intervals from there.
  ghost predicate Regular(ts: seq<real>, first: real, last: real, interval: real) {
    && ts != []
    && (|ts| >= 2 ==> ts[0] == first)
    && (forall i :: 0 < i < |ts| - 1 ==> interval - 0.001 <= ts[i] - ts[i - 1] <= interval + 0.001)
    && Distance(ts[|ts| - 1], last) <= interval * 0.45
  }

  lemma LastIsRegular(times: seq<real>, maxFrames: int, interval: real, duration: real, last: real)
    requires Even(times, interval, duration) && interval >= 1.5
    ensures Regular(WithLast(times, last, maxFrames, interval), times[0], last, interval)
  {
    var ts := WithLast(times, last, maxFrames, interval);
    forall i | 0 < i < |ts| - 1
      ensures interval - 0.001 <= ts[i] - ts[i - 1] <= interval + 0.001
    {
      assert ts[i] == times[i] && ts[i - 1] == times[i - 1];
    }
  }

  lemma LastFits(times: seq<real>, duration: real, maxFrames: int, interval: real, last: real)
    requires duration >= 1.0 && interval >= 1.5 && Even(times, interval, duration) && |times| <= maxFrames
    requires maxFrames == 1 ==> interval >= duration
    requires -0.0005 <= last - (duration - 0.35) <= 0.0005
    ensures var ts := WithLast(times, last, maxFrames, interval);
            Spaced(ts, duration) && Tight(ts, duration, interval) && |ts| <= maxFrames
  {
    if Distance(times[|times| - 1], last) > interval * 0.45 {
      if |times| < maxFrames {
        AppendFits(times, duration, interval, last);
      } else {
        ReplaceFits(times, duration, interval, last);
      }
    }
  }

  // The final pass: clip every stamp into the clip and drop what is too close to the one kept
  // before. Spaced stamps pass unchanged.
  method Dedupe(times: seq<real>, duration: real) returns (out: seq<real>)
    requires duration >= 1.0
    ensures |out| <= |times|
    ensures Spaced(times, duration) ==> out == times
  {
    out := [];
    for i := 0 to |times|
      invariant |out| <= i
      invariant Spaced(times, duration) ==> out == times[..i]
    {
      var clipped := MinReal(MaxReal(times[i], 0.0), MaxReal(duration - 0.05, 0.0));
      if out == [] || Distance(out[|out| - 1], clipped) > 0.2 {
        out := out + [clipped];
      }
    }
  }

  // When the first sample is taken: 8 % into the clip, but between 0.2 and 1.2 s.
  function FirstTick(duration: real): (start: real)
    ensures 0.2 <= start <= 1.2 && (duration >= 1.0 ==> start < duration - 0.12)
    ensures (duration <= 2.5 ==> start == 0.2) && (duration >= 15.0 ==> start == 1.2)
    ensures 2.5 <= duration <= 15.0 ==> 100.0 * start == 8.0 * duration
  {
    MinReal(1.2, MaxReal(duration * 0.08, 0.2))
  }

  // What the stamps of a clip of at least a second promise.
  ghost predicate GoodStamps(ts: seq<real>, duration: real, maxFrames: int, interval: real) {
    && 1 <= |ts| <= maxFrames
    && Spaced(ts, duration)
    && Regular(ts, Round3(FirstTick(duration)), Round3(duration - 0.35), interval)
    && (forall x :: 0.0 <= x <= duration ==> CoveredBy(ts, x, interval))
  }

  lemma StampsAreGood(times: seq<real>, duration: real, maxFrames: int, interval: real)
    requires duration >= 1.0 && Reaches(duration, maxFrames, FirstTick(duration), interval)
    requires Sampled(times, FirstTick(duration), interval, duration) && |times| <= maxFrames
    requires Tick(FirstTick(duration), interval, |times|) >= duration - 0.12
    ensures GoodStamps(WithLast(times, Round3(duration - 0.35), maxFrames, interval), duration, maxFrames, interval)
  {
    var last := Round3(duration - 0.35);
    var ts := WithLast(times, last, maxFrames, interval);
    Round3Near(duration - 0.35);
    SampledIsEven(times, FirstTick(duration), interval, duration);
    LastFits(times, duration, maxFrames, interval, last);
    LastIsRegular(times, maxFrames, interval, duration, last);
    assert times[0] == Round3(Tick(FirstTick(duration), interval, 0));
    forall x | 0.0 <= x <= duration
      ensures CoveredBy(ts, x, interval)
    {
      var i := TightCovers(ts, duration, interval, x);
    }
  }

  // For any duration and at least one frame: at most maxFrames stamps, more than 0.2 s apart,
  // inside the clip (which counts as one second if shorter), at regular intervals from the first
  // sample to the end, and every moment of the clip lies within one interval of a stamp.
  method OverlaySampleTimes(given: real, maxFrames: int) returns (out: seq<real>)
    ensures var clip := if given > 1.0 then given else 1.0;
            && (maxFrames < 1 ==> out == [MinReal(Round3(clip - 0.35), clip / 2.0)])
            && (maxFrames >= 1 ==> GoodStamps(out, clip, maxFrames, OverlayFrameInterval(given, maxFrames)))
  {
    var duration := MaxReal(given, 1.0);
    var interval := OverlayFrameInterval(duration, maxFrames);
    var start := FirstTick(duration);
    IntervalReaches(duration, maxFrames, start);
    var times := SampleTimes(duration, maxFrames, start, interval);
    var last := Round3(MaxReal(duration - 0.35, 0.0));
    if times == [] {
      return [MinReal(last, duration / 2.0)];
    }
    StampsAreGood(times, duration, maxFrames, interval);
    if Distance(times[|times| - 1], last) > interval * 0.45 {
      if |times| < maxFrames {
        times := times + [last];
      } else {
        times := times[|times| - 1 := last];
      }
    }
    out := Dedupe(times, duration);
  }
}
