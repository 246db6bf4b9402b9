/** The last-resort reading of video frames, a few at a time, under the cost ceiling of a job. */
module VisionBudget {
  import opened Arithmetic
  import FrameSampling

  const VISION_BATCH: nat := 4

  // A batch that was sent, and what the job had cost when it started.
  datatype Batch = Batch(frames: seq<nat>, spentBefore: real)

  function Flatten(batches: seq<Batch>): seq<nat> {
    if batches == [] then [] else Flatten(batches[..|batches| - 1]) + batches[|batches| - 1].frames
  }

  lemma FlattenSnoc(batches: seq<Batch>, b: Batch)
    ensures Flatten(batches + [b]) == Flatten(batches) + b.frames
  {
    assert (batches + [b])[..|batches + [b]| - 1] == batches;
  }

  // The price of n frames.
  function Estimate(n: nat, price: real): real {
    if n == 0 then 0.0 else Estimate(n - 1, price) + price
  }

  lemma {:induction false} EstimateIsProduct(n: nat, price: real)
    ensures Estimate(n, price) == n as real * price
  {
    if n > 0 {
      EstimateIsProduct(n - 1, price);
      assert n as real == (n - 1) as real + 1.0;
      assert ((n - 1) as real + 1.0) * price == (n - 1) as real * price + price;
    }
  }

  ghost predicate Distinct(s: seq<nat>) {
    forall i, j :: 0 <= i < j < |s| ==> s[i] != s[j]
  }

  // How often k occurs.
  function Times(k: nat, s: seq<nat>): nat {
    if s == [] then 0 else Times(k, s[..|s| - 1]) + (if s[|s| - 1] == k then 1 else 0)
  }

  lemma {:induction false} TimesOfSum(k: nat, s: seq<nat>, t: seq<nat>)
    ensures Times(k, s + t) == Times(k, s) + Times(k, t)
    decreases |t|
  {
    if t == [] {
      assert s + t == s;
    } else {
      assert (s + t)[..|s + t| - 1] == s + t[..|t| - 1];
      TimesOfSum(k, s, t[..|t| - 1]);
    }
  }

  lemma {:induction false} OccursIfCounted(k: nat, s: seq<nat>)
    ensures k in s <==> Times(k, s) > 0
    decreases |s|
  {
    if s != [] {
      OccursIfCounted(k, s[..|s| - 1]);
      assert s == s[..|s| - 1] + [s[|s| - 1]];
    }
  }

  lemma {:induction false} DistinctCountsOnce(k: nat, s: seq<nat>)
    requires Distinct(s)
    ensures Times(k, s) <= 1
    decreases |s|
  {
    if s != [] {
      DistinctCountsOnce(k, s[..|s| - 1]);
      OccursIfCounted(k, s[..|s| - 1]);
    }
  }

  lemma CountedOnceIsDistinct(s: seq<nat>)
    requires forall k: nat :: Times(k, s) <= 1
    ensures Distinct(s)
  {
    forall i, j | 0 <= i < j < |s| ensures s[i] != s[j] {
      var left, right := s[..j], s[j..];
      assert s == left + right && right[0] == s[j] && left[i] == s[i];
      TimesOfSum(s[j], left, right);
      OccursIfCounted(s[j], left);
      OccursIfCounted(s[j], right);
      assert Times(s[j], s) <= 1;
    }
  }

  // The frames of 0 .. total that are not in `first`, in order.
  function Leftover(total: nat, first: seq<nat>): seq<nat> {
    if total == 0 then []
    else Leftover(total - 1, first) + (if total - 1 in first then [] else [total - 1])
  }

  lemma {:induction false} LeftoverIs(total: nat, first: seq<nat>)
    ensures forall i :: 0 <= i < |Leftover(total, first)| ==>
              Leftover(total, first)[i] < total && Leftover(total, first)[i] !in first
    ensures forall i, j :: 0 <= i < j < |Leftover(total, first)| ==>
              Leftover(total, first)[i] < Leftover(total, first)[j]
    ensures forall k: nat :: k < total && k !in first ==> k in Leftover(total, first)
    decreases total
  {
    if total > 0 {
      LeftoverIs(total - 1, first);
    }
  }

  // The order in which the frames of 0 .. total are offered: the spread ones, then the others.
  function Plan(total: nat, first: seq<nat>): seq<nat> {
    first + Leftover(total, first)
  }

  // The plan names every frame once, and no other.
  lemma PlanIsAnArrangement(total: nat, first: seq<nat>)
    requires Distinct(first) && forall i :: 0 <= i < |first| ==> first[i] < total
    ensures Distinct(Plan(total, first))
    ensures forall k: nat :: k in Plan(total, first) <==> k < total
  {
    LeftoverIs(total, first);
  }

  lemma Distribute(a: real, b: real, c: real)
    ensures (a + b) * c == a * c + b * c
  {
  }

  lemma LessThanOne(f: real, c: real)
    requires 0.0 <= f < 1.0 && c > 0.0
    ensures 0.0 <= f * c < c
  {
    assert (1.0 - f) * c > 0.0;
    assert (1.0 - f) * c == c - f * c;
  }

  // With whole units q and a rest f of a unit, the cost lies between q and q + 1 units.
  lemma Between(q: nat, f: real, price: real, cost: real)
    requires price > 0.0 && 0.0 <= f < 1.0 && cost == (q as real + f) * price
    ensures Estimate(q, price) <= cost < Estimate(q, price) + price
  {
    LessThanOne(f, price);
    Distribute(q as real, f, price);
    EstimateIsProduct(q, price);
  }

  lemma Quotient(a: real, b: real)
    requires b > 0.0
    ensures (a / b) * b == a
  {
  }

  // A quotient rounded down is the last number of frames that fits.
  lemma FloorFits(budget: real, price: real, q: nat)
    requires price > 0.0 && budget >= 0.0 && q == (budget / price).Floor
    ensures Estimate(q, price) <= budget < Estimate(q + 1, price)
  {
    var exact := budget / price;
    Quotient(budget, price);
    assert q as real + (exact - q as real) == exact;
    Between(q, exact - q as real, price, budget);
    assert Estimate(q + 1, price) == Estimate(q, price) + price;
  }

  lemma {:induction false} MoreCostsMore(m: nat, n: nat, price: real)
    requires m <= n && price >= 0.0
    ensures Estimate(m, price) <= Estimate(n, price)
    decreases n
  {
    if m < n {
      MoreCostsMore(m, n - 1, price);
    }
  }

  // Of the frames as many as the remaining budget pays for, at a price of 0.01 or more each; but
  // one if there are any: more than one cost no more than the budget, and where frames are left
  // out one more would have cost more than it.
  lemma AffordableExactly(frames: nat, remaining: real, price: real)
    ensures var n := Affordable(frames, remaining, price);
            var each := if price > 0.01 then price else 0.01;
            && (n > 1 ==> Estimate(n, each) <= remaining)
            && (n < frames ==> Estimate(n + 1, each) > remaining)
  {
    var n := Affordable(frames, remaining, price);
    var each := FrameSampling.MaxReal(price, 0.01);
    var budget := FrameSampling.MaxReal(remaining, 0.0);
    var exact := budget / each;
    assert exact >= 0.0;
    var q: nat := exact.Floor;
    FloorFits(budget, each, q);
    if n > 1 {
      MoreCostsMore(n, q, each);
    }
    if n < frames {
      MoreCostsMore(q + 1, n + 1, each);
    }
  }

  // How many of the frames the remaining budget pays for; never fewer than one if there are any.
  function Affordable(frames: nat, remaining: real, price: real): (n: nat)
    ensures n <= frames && (n == 0 <==> frames == 0)
  {
    var payable := FrameSampling.MaxReal(remaining, 0.0) / FrameSampling.MaxReal(price, 0.01);
    Min(frames, Max(1, payable.Floor))
  }

  // As many frames as asked for, one at least if there are any, in order from the first to the last.
  ghost predicate IsFirstPass(first: seq<nat>, total: nat, firstPass: int) {
    && |first| == Min(Max(1, firstPass), total)
    && (forall i, j :: 0 <= i < j < |first| ==> first[i] < first[j])
    && (|first| >= 1 ==> first[0] == 0) && (|first| >= 2 ==> first[|first| - 1] == total - 1)
  }

  // What was offered was either sent or skipped.
  ghost predicate Balanced(batches: seq<Batch>, skipped: seq<nat>, offered: seq<nat>) {
    forall k: nat :: Times(k, Flatten(batches)) + Times(k, skipped) == Times(k, offered)
  }

  // Every batch sent was within the ceiling when it started.
  ghost predicate Within(batches: seq<Batch>, price: real, ceiling: real) {
    forall b :: b in batches ==> b.spentBefore + Estimate(|b.frames|, price) <= ceiling
  }

  // Every batch after the earlier ones has four frames at most.
  ghost predicate SmallBatchesAfter(earlier: seq<Batch>, batches: seq<Batch>) {
    earlier <= batches && forall b :: b in batches[|earlier|..] ==> |b.frames| <= 4
  }

  lemma SmallBatchesChain(a: seq<Batch>, b: seq<Batch>, c: seq<Batch>)
    requires SmallBatchesAfter(a, b) && SmallBatchesAfter(b, c)
    ensures SmallBatchesAfter(a, c)
  {
    assert c[|a|..] == b[|a|..] + c[|b|..];
  }

  lemma SendKeepsBalance(batches: seq<Batch>, skipped: seq<nat>, offered: seq<nat>, b: Batch)
    requires Balanced(batches, skipped, offered)
    ensures Balanced(batches + [b], skipped, offered + b.frames)
    ensures |Flatten(batches + [b])| == |Flatten(batches)| + |b.frames|
  {
    FlattenSnoc(batches, b);
    forall k: nat
      ensures Times(k, Flatten(batches + [b])) + Times(k, skipped) == Times(k, offered + b.frames)
    {
      TimesOfSum(k, Flatten(batches), b.frames);
      TimesOfSum(k, offered, b.frames);
    }
  }

  lemma SkipKeepsBalance(batches: seq<Batch>, skipped: seq<nat>, offered: seq<nat>, frames: seq<nat>)
    requires Balanced(batches, skipped, offered)
    ensures Balanced(batches, skipped + frames, offered + frames)
  {
    forall k: nat
      ensures Times(k, Flatten(batches)) + Times(k, skipped + frames) == Times(k, offered + frames)
    {
      TimesOfSum(k, skipped, frames);
      TimesOfSum(k, offered, frames);
    }
  }

  // Of a plan without repetitions that was carried out up to some point, nothing was done twice.
  lemma SentOnce(batches: seq<Batch>, skipped: seq<nat>, offered: seq<nat>, plan: seq<nat>)
    requires Balanced(batches, skipped, offered)
    requires offered <= plan && Distinct(plan)
    ensures Distinct(Flatten(batches))
    ensures forall k: nat :: k in Flatten(batches) ==> k in plan
    ensures forall k: nat :: k in offered ==> k in Flatten(batches) || k in skipped
  {
    var sent := Flatten(batches);
    forall k: nat ensures Times(k, sent) <= 1 {
      DistinctCountsOnce(k, offered);
      assert Times(k, sent) + Times(k, skipped) == Times(k, offered);
    }
    CountedOnceIsDistinct(sent);
    forall k: nat ensures k in offered <==> k in sent || k in skipped {
      assert Times(k, sent) + Times(k, skipped) == Times(k, offered);
      OccursIfCounted(k, sent);
      OccursIfCounted(k, skipped);
      OccursIfCounted(k, offered);
    }
  }

  lemma PlanAccounted(batches: seq<Batch>, skipped: seq<nat>, offered: seq<nat>, total: nat, first: seq<nat>)
    requires Balanced(batches, skipped, offered) && offered <= Plan(total, first)
    requires Distinct(first) && forall i :: 0 <= i < |first| ==> first[i] < total
    ensures Distinct(Flatten(batches))
    ensures forall k: nat :: k in Flatten(batches) ==> k < total
    ensures offered == Plan(total, first) ==>
              forall k: nat :: k < total ==> k in Flatten(batches) || k in skipped
  {
    PlanIsAnArrangement(total, first);
    SentOnce(batches, skipped, offered, Plan(total, first));
  }

  class VisionRun {
    const maxJobCost: real
    const costPerFrame: real
    // What the k-th batch turns out to cost, and whether the recipe is complete at the k-th
    // attempt to build it.
    const charge: nat -> real
    const complete: nat -> bool
    var spent: real
    var analyzed: nat
    var attempts: nat
    ghost var batches: seq<Batch>
    ghost var skipped: seq<nat>
    ghost var offered: seq<nat>

    ghost predicate Valid()
      reads this
    {
      analyzed == |Flatten(batches)| && Balanced(batches, skipped, offered) && Within(batches, costPerFrame, maxJobCost)
    }

    constructor (maxJobCost: real, costPerFrame: real, spent: real, charge: nat -> real, complete: nat -> bool)
      ensures Valid() && offered == [] && batches == [] && skipped == [] && analyzed == 0
      ensures this.maxJobCost == maxJobCost && this.costPerFrame == costPerFrame && this.spent == spent
    {
      this.maxJobCost, this.costPerFrame, this.spent := maxJobCost, costPerFrame, spent;
      this.charge, this.complete := charge, complete;
      analyzed, attempts, batches, skipped, offered := 0, 0, [], [], [];
    }

    // run_batch: nothing is sent when the batch's own estimate would pass the ceiling.
    method RunBatch(batch: seq<nat>)
      requires Valid()
      modifies this
      ensures Valid()
      ensures attempts == old(attempts) && offered == old(offered) + batch
      ensures var fits := old(spent) + Estimate(|batch|, costPerFrame) <= maxJobCost;
              && batches == old(batches) + (if batch != [] && fits then [Batch(batch, old(spent))] else [])
              && skipped == old(skipped) + (if batch != [] && !fits then batch else [])
              && spent == (if batch != [] && fits then old(spent) + charge(attempts) else old(spent))
    {
      if batch == [] {
        return;
      }
      if spent + Estimate(|batch|, costPerFrame) > maxJobCost {
        SkipKeepsBalance(batches, skipped, offered, batch);
        skipped, offered := skipped + batch, offered + batch;
        return;
      }
      SendKeepsBalance(batches, skipped, offered, Batch(batch, spent));
      batches, offered := batches + [Batch(batch, spent)], offered + batch;
      analyzed := analyzed + |batch|;
      spent := spent + charge(attempts);
    }

    // try_build with the evidence gathered so far.
    method TryBuild() returns (built: bool)
      requires Valid()
      modifies this`attempts
      ensures Valid()
      ensures built == complete(old(attempts)) && attempts == old(attempts) + 1
    {
      built := complete(attempts);
      attempts := attempts + 1;
    }

    // One slice of frames and the attempt that follows it.
    method RunSlice(batch: seq<nat>) returns (built: bool)
      requires Valid() && |batch| <= VISION_BATCH
      modifies this
      ensures Valid() && offered == old(offered) + batch
      ensures SmallBatchesAfter(old(batches), batches)
      ensures built == complete(old(attempts)) && attempts == old(attempts) + 1
    {
      RunBatch(batch);
      built := TryBuild();
    }

    // The frames that were not in the first pass, four at a time until a recipe can be built.
    method RunLeftover(leftover: seq<nat>) returns (built: bool)
      requires Valid()
      modifies this
      ensures Valid()
      ensures old(offered) <= offered <= old(offered) + leftover
      ensures SmallBatchesAfter(old(batches), batches)
      // Four frames an attempt, and fewer only at the end.
      ensures attempts >= old(attempts)
      ensures |offered| - |old(offered)| == Min(4 * (attempts - old(attempts)), |leftover|)
      ensures built ==> attempts > 0 && complete(attempts - 1)
      ensures !built ==> offered == old(offered) + leftover
      ensures !built ==> forall k: nat :: old(attempts) <= k < attempts ==> !complete(k)
    {
      var start := 0;
      while start < |leftover|
        invariant 0 <= start <= |leftover|
        invariant Valid()
        invariant offered == old(offered) + leftover[..start]
        invariant SmallBatchesAfter(old(batches), batches)
        invariant attempts >= old(attempts) && start == Min(4 * (attempts - old(attempts)), |leftover|)
        invariant forall k: nat :: old(attempts) <= k < attempts ==> !complete(k)
      {
        var next := Min(start + VISION_BATCH, |leftover|);
        ghost var before := batches;
        built := RunSlice(leftover[start..next]);
        SmallBatchesChain(old(batches), before, batches);
        assert leftover[..start] + leftover[start..next] == leftover[..next];
        if built {
          return;
        }
        start := next;
      }
      built := false;
    }

    // One pass over the first frames, then the leftover ones.
    method RunPlan(first: seq<nat>, total: nat) returns (built: bool)
      requires Valid() && offered == [] && attempts == 0
      modifies this
      ensures Valid()
      ensures first <= offered <= Plan(total, first)
      ensures !built ==> offered == Plan(total, first)
      ensures built ==> attempts > 0 && complete(attempts - 1)
      ensures !built ==> forall k: nat :: k < attempts ==> !complete(k)
    {
      RunBatch(first);
      assert offered == first;
      built := TryBuild();
      if !built {
        built := RunLeftover(Leftover(total, first));
      }
    }

    static method FirstFrames(total: nat, firstPass: int) returns (first: seq<nat>)
      requires total >= 1
      ensures IsFirstPass(first, total, firstPass) && Distinct(first)
      ensures forall i :: 0 <= i < |first| ==> first[i] < total
    {
      var firstN := Max(1, firstPass);
      var indexes := FrameSampling.SelectSpreadFrameIndexes(total, Min(firstN, total));
      first := seq(|indexes|, i requires 0 <= i < |indexes| => indexes[i]);
    }

    // _vision_incremental_build: spread frames first, then the others in order, until a recipe
    // can be built. Whatever the batches cost and wherever it stops, no frame is sent twice and
    // none beyond those the budget pays for; and when no recipe comes of it, each of those was
    // sent or was in a batch that would not fit.
    method IncrementalBuild(frames: nat, firstPass: int) returns (built: bool, ghost first: seq<nat>)
      requires Valid() && offered == [] && attempts == 0
      modifies this
      ensures Valid()
      ensures Distinct(Flatten(batches))
      ensures var total := Affordable(frames, maxJobCost - old(spent), costPerFrame);
              && (forall k: nat :: k in Flatten(batches) ==> k < total)
              && (!built ==> forall k: nat :: k < total ==> k in Flatten(batches) || k in skipped)
      ensures built ==> attempts > 0 && complete(attempts - 1)
      ensures !built ==> forall k: nat :: k < attempts ==> !complete(k)
      // The first pass: as many frames as asked for, one at least, from the first to the last.
      ensures var total := Affordable(frames, maxJobCost - old(spent), costPerFrame);
              && first <= offered <= Plan(total, first) && (!built ==> offered == Plan(total, first))
              && IsFirstPass(first, total, firstPass)
    {
      first := [];
      if frames == 0 {
        PlanAccounted(batches, skipped, offered, 0, []);
        return false, [];
      }
      var total := Affordable(frames, maxJobCost - spent, costPerFrame);
      var firstFrames := FirstFrames(total, firstPass);
      built := RunPlan(firstFrames, total);
      first := firstFrames;
      PlanAccounted(batches, skipped, offered, total, first);
    }
  }
}
