/**
 The in-process slots for running jobs, the admission that takes one, and the recursive drain
 by which a finished extract starts the next pending one. Local mode: no separate worker, no
 maintenance, every database call succeeds, nobody else acts.
 */
module JobSlots {
  import opened Options

  type UserId = string

  // ---------------------------------------------------------------- the guard

  // The counter and the dictionary of the source.
  datatype Guard = Guard(active: int, users: map<UserId, int>)

  function Count(g: Guard, user: UserId): int {
    if user in g.users then g.users[user] else 0
  }

  function Released(g: Guard, user: UserId): Guard {
    var active := if g.active - 1 > 0 then g.active - 1 else 0;
    var left := if Count(g, user) - 1 > 0 then Count(g, user) - 1 else 0;
    Guard(active, if left == 0 then g.users - {user} else g.users[user := left])
  }

  // The guard's books agree with the slots that are really held.
  ghost predicate Agrees(g: Guard, held: multiset<UserId>) {
    g.active == |held| && forall u :: Count(g, u) == held[u]
  }

  lemma HolderIsCounted(held: multiset<UserId>, user: UserId)
    requires held[user] > 0
    ensures |held - multiset{user}| == |held| - 1
  {
    assert held == (held - multiset{user}) + multiset{user};
  }

  lemma TakenAndGiven(slots: multiset<UserId>, user: UserId)
    ensures slots + multiset{user} - multiset{user} == slots
  {
  }

  // A release by a holder gives back exactly that user's slot.
  lemma ReleaseGivesBack(g: Guard, held: multiset<UserId>, user: UserId)
    requires Agrees(g, held) && held[user] > 0
    ensures Agrees(Released(g, user), held - multiset{user})
  {
    HolderIsCounted(held, user);
  }

  lemma {:induction false} SameCountsSameSize(a: multiset<UserId>, b: multiset<UserId>)
    requires forall u :: a[u] == b[u]
    ensures |a| == |b|
  {
    assert a == b;
  }

  // After any release the counter and the dictionary still describe some set of held slots
  // exactly when the user held one, or nobody held any.
  lemma ReleaseKeepsBooksExactly(g: Guard, held: multiset<UserId>, user: UserId)
    requires Agrees(g, held)
    ensures (exists after :: Agrees(Released(g, user), after)) <==> held[user] > 0 || |held| == 0
  {
    if held[user] > 0 {
      ReleaseGivesBack(g, held, user);
    } else if |held| == 0 {
      assert Agrees(Released(g, user), held);
    } else {
      forall after
        ensures !Agrees(Released(g, user), after)
      {
        if Agrees(Released(g, user), after) {
          forall u
            ensures after[u] == held[u]
          {
            assert Count(Released(g, user), u) == Count(g, u);
          }
          SameCountsSameSize(after, held);
        }
      }
    }
  }

  // ---------------------------------------------------------------- jobs

  datatype Status = Pending | Processing | Completed | Failed

  // Jobs stand in the order of their creation.
  datatype Job = Job(user: UserId, status: Status)

  predicate Finished(job: Job) {
    job.status.Completed? || job.status.Failed?
  }

  predicate Wanted(job: Job, user: Option<UserId>) {
    job.status.Pending? && (user.None? || user == Some(job.user))
  }

  // The oldest pending job, of one user or of all.
  function Oldest(jobs: seq<Job>, user: Option<UserId>, from: nat := 0): (id: Option<nat>)
    requires from <= |jobs|
    ensures id.Some? ==> from <= id.value < |jobs| && Wanted(jobs[id.value], user)
    ensures forall i :: from <= i < |jobs| && Wanted(jobs[i], user) ==> id.Some? && id.value <= i
    decreases |jobs| - from
  {
    if from == |jobs| then None
    else if Wanted(jobs[from], user) then Some(from)
    else Oldest(jobs, user, from + 1)
  }

  function PendingCount(jobs: seq<Job>): nat {
    if jobs == [] then 0 else PendingCount(jobs[1..]) + (if jobs[0].status.Pending? then 1 else 0)
  }

  lemma {:induction false} PendingCountUpdate(jobs: seq<Job>, i: nat, job: Job)
    requires i < |jobs|
    ensures PendingCount(jobs[i := job]) ==
            PendingCount(jobs) - (if jobs[i].status.Pending? then 1 else 0) + (if job.status.Pending? then 1 else 0)
    decreases i
  {
    if i == 0 {
      assert jobs[0 := job][1..] == jobs[1..];
    } else {
      PendingCountUpdate(jobs[1..], i - 1, job);
      assert jobs[i := job][1..] == jobs[1..][i - 1 := job];
    }
  }

  // How a job's run leaves it: completed if its extraction succeeds, else failed.
  function EndOf(job: Job, success: bool): Job {
    Job(job.user, if success then Completed else Failed)
  }

  // Job id was pending and has been run to its end.
  predicate WasRun(succeeds: nat -> bool, before: seq<Job>, after: seq<Job>, id: nat) {
    && id < |before| && id < |after|
    && before[id].status.Pending? && after[id].user == before[id].user
    && (succeeds(id) ==> after[id].status == Completed) && (!succeeds(id) ==> after[id].status == Failed)
  }

  // No job appears twice, and the jobs of one user appear in the order of their creation.
  ghost predicate InOrder(jobs: seq<Job>, ran: seq<nat>) {
    && (forall k :: 0 <= k < |ran| ==> ran[k] < |jobs|)
    && (forall k, m :: 0 <= k < m < |ran| ==>
          ran[k] != ran[m] && (jobs[ran[k]].user == jobs[ran[m]].user ==> ran[k] < ran[m]))
  }

  // What a drain did to the jobs: it ran the jobs `ran`, in this order. Each of them was
  // pending, ran once and is finished; every other job is as it was; and the jobs of one user
  // ran in the order of their creation.
  ghost predicate Drained(succeeds: nat -> bool, before: seq<Job>, after: seq<Job>, ran: seq<nat>) {
    && |after| == |before|
    && (forall i :: 0 <= i < |before| && i !in ran ==> after[i] == before[i])
    && (forall k :: 0 <= k < |ran| ==> WasRun(succeeds, before, after, ran[k]))
    && InOrder(before, ran)
  }

  lemma OrderedOneMore(before: seq<Job>, id: nat, middle: seq<Job>, ran: seq<nat>)
    requires id < |before| && Oldest(before, Some(before[id].user)) == Some(id)
    requires |middle| == |before| && InOrder(middle, ran)
    requires forall i :: 0 <= i < |before| ==> middle[i].user == before[i].user
    requires forall k :: 0 <= k < |ran| ==> ran[k] != id && ran[k] < |before| && before[ran[k]].status.Pending?
    ensures InOrder(before, [id] + ran)
  {
    var all := [id] + ran;
    forall k, m | 0 <= k < m < |all|
      ensures all[k] != all[m] && (before[all[k]].user == before[all[m]].user ==> all[k] < all[m])
    {
      assert all[m] == ran[m - 1];
      if k == 0 {
        assert before[all[m]].user == before[id].user ==> Wanted(before[all[m]], Some(before[id].user));
      } else {
        assert all[k] == ran[k - 1];
      }
    }
  }

  // One job, the oldest of its user, ran before the rest.
  lemma DrainedOneMore(succeeds: nat -> bool, before: seq<Job>, id: nat, after: seq<Job>, ran: seq<nat>)
    requires id < |before| && before[id].status.Pending?
    requires Oldest(before, Some(before[id].user)) == Some(id)
    requires Drained(succeeds, before[id := EndOf(before[id], succeeds(id))], after, ran)
    ensures Drained(succeeds, before, after, [id] + ran)
  {
    var middle := before[id := EndOf(before[id], succeeds(id))];
    var all := [id] + ran;
    forall k | 0 <= k < |ran|
      ensures ran[k] != id && WasRun(succeeds, before, after, ran[k])
    {
      assert WasRun(succeeds, middle, after, ran[k]);
    }
    assert id !in ran && after[id] == middle[id];
    OrderedOneMore(before, id, middle, ran);
    forall k | 0 <= k < |all|
      ensures WasRun(succeeds, before, after, all[k])
    {
      assert k > 0 ==> all[k] == ran[k - 1];
    }
    forall i | 0 <= i < |before| && i !in all
      ensures after[i] == before[i]
    {
      assert i != all[0];
      assert forall k :: 0 <= k < |ran| ==> ran[k] == all[k + 1];
    }
  }

  // The order in which a drain runs jobs. A run that has ended gives its owner a free slot, so
  // the owner's own oldest pending job comes next if there is one; else, if anything is run,
  // the oldest of all, and the drain goes on for that job's owner.
  ghost predicate Scheduled(succeeds: nat -> bool, jobs: seq<Job>, owner: UserId, ran: seq<nat>)
    decreases |ran|
  {
    var own := Oldest(jobs, Some(owner));
    && (own.Some? ==> ran != [] && ran[0] == own.value)
    && (own.None? && ran != [] ==> Oldest(jobs, None) == Some(ran[0]))
    && (ran != [] ==>
          && ran[0] < |jobs|
          && Scheduled(succeeds, jobs[ran[0] := EndOf(jobs[ran[0]], succeeds(ran[0]))], jobs[ran[0]].user, ran[1..]))
  }

  lemma FinishingKeepsCount(jobs: seq<Job>, id: nat, user: UserId, status: Status)
    requires id < |jobs| && (status == Completed || status == Failed)
    ensures PendingCount(jobs[id := Job(user, Processing)][id := Job(user, status)]) <= PendingCount(jobs)
  {
    PendingCountUpdate(jobs, id, Job(user, Processing));
    PendingCountUpdate(jobs[id := Job(user, Processing)], id, Job(user, status));
  }

  // The oldest job of all is its owner's oldest.
  lemma OldestOfItsOwner(jobs: seq<Job>, id: nat)
    requires Oldest(jobs, None) == Some(id)
    ensures Oldest(jobs, Some(jobs[id].user)) == Some(id)
  {
    assert Wanted(jobs[id], Some(jobs[id].user));
    var own := Oldest(jobs, Some(jobs[id].user));
    assert Wanted(jobs[own.value], None);
  }

  // ---------------------------------------------------------------- the pipeline

  // How the admission's database calls end.
  datatype CreateResult = JobCreated | ReplayedSame | ReplayedOther | CreateRefused | CreateRaised
  datatype ReserveResult = SpendReserved | ReserveRefused | ReserveRaised
  datatype Admission = Started | Queued | Replayed | QueueFull | Rejected

  class Pipeline {
    const maxJobs: nat
    const maxJobsPerUser: nat
    const maxPendingPerUser: nat
    const workerEnabled: bool
    // How each job's extraction would end.
    const succeeds: nat -> bool
    var guard: Guard
    var jobs: seq<Job>
    // The slots really held, and the jobs run so far.
    ghost var held: multiset<UserId>
    ghost var ran: seq<nat>

    // The books agree and neither bound is passed.
    ghost predicate Valid()
      reads this
    {
      && Agrees(guard, held)
      && |held| <= maxJobs
      && (forall u :: held[u] <= maxJobsPerUser)
    }

    ghost predicate HasFreeSlot(user: UserId)
      reads this
    {
      |held| < maxJobs && held[user] < maxJobsPerUser
    }

    // No extract is pending, or the owner of the oldest one has no free slot.
    ghost predicate Stopped()
      reads this
    {
      var oldest := Oldest(jobs, None);
      oldest.Some? ==> !HasFreeSlot(jobs[oldest.value].user)
    }

    // After its first job a drain is the drain of that job's owner.
    ghost predicate GoesOn(before: seq<Job>, more: seq<nat>) {
      more != [] ==>
        && more[0] < |before|
        && Scheduled(succeeds, before[more[0] := EndOf(before[more[0]], succeeds(more[0]))], before[more[0]].user,
                     more[1..])
    }

    constructor (maxJobs: nat, maxJobsPerUser: nat, maxPendingPerUser: nat, workerEnabled: bool, succeeds: nat -> bool)
      ensures Valid() && held == multiset{} && jobs == [] && ran == []
      ensures this.maxJobs == maxJobs && this.maxJobsPerUser == maxJobsPerUser
    {
      this.maxJobs, this.maxJobsPerUser, this.maxPendingPerUser := maxJobs, maxJobsPerUser, maxPendingPerUser;
      this.workerEnabled, this.succeeds := workerEnabled, succeeds;
      guard, jobs, held, ran := Guard(0, map[]), [], multiset{}, [];
    }

    method TryClaim(user: UserId) returns (ok: bool)
      requires Valid()
      modifies this`guard, this`held
      ensures Valid()
      ensures ok == old(HasFreeSlot(user))
      ensures held == if ok then old(held) + multiset{user} else old(held)
    {
      if guard.active >= maxJobs || Count(guard, user) >= maxJobsPerUser {
        return false;
      }
      guard := Guard(guard.active + 1, guard.users[user := Count(guard, user) + 1]);
      held := held + multiset{user};
      return true;
    }

    method Release(user: UserId)
      requires Valid() && held[user] > 0
      modifies this`guard, this`held
      ensures Valid() && held == old(held) - multiset{user}
    {
      ReleaseGivesBack(guard, held, user);
      HolderIsCounted(held, user);
      guard := Released(guard, user);
      held := held - multiset{user};
    }

    // claim_next_pending_extract: the oldest pending job becomes processing.
    method ClaimNextPending(user: Option<UserId>) returns (id: Option<nat>)
      requires Valid()
      modifies this`jobs
      ensures Valid() && id == Oldest(old(jobs), user)
      ensures jobs == if id.Some? then old(jobs)[id.value := old(jobs)[id.value].(status := Processing)] else old(jobs)
    {
      id := Oldest(jobs, user);
      if id.Some? {
        jobs := jobs[id.value := jobs[id.value].(status := Processing)];
      }
    }

    // run_extract_job with a slot of its user: run, release, drain. It returns every slot taken
    // since, ends on a state where the drain has to stop, and runs each pending job at most once.
    method RunExtractJob(id: nat) returns (ghost more: seq<nat>)
      requires Valid() && id < |jobs| && held[jobs[id].user] > 0
      modifies this
      ensures Valid() && Stopped()
      ensures held == old(held) - multiset{old(jobs)[id].user}
      ensures ran == old(ran) + ([id] + more)
      ensures Drained(succeeds, old(jobs)[id := EndOf(old(jobs)[id], succeeds(id))], jobs, more)
      ensures Scheduled(succeeds, old(jobs)[id := EndOf(old(jobs)[id], succeeds(id))], old(jobs)[id].user, more)
      decreases PendingCount(jobs), 3
    {
      var user := jobs[id].user;
      FinishJob(id);
      more := ReleaseAndDrain(user);
      assert ran == old(ran) + ([id] + more);
    }

    // The finally block of a run: give back the slot, then drain. The owner has a slot again.
    method ReleaseAndDrain(user: UserId) returns (ghost more: seq<nat>)
      requires Valid() && held[user] > 0
      modifies this
      ensures Valid() && Stopped()
      ensures held == old(held) - multiset{user} && ran == old(ran) + more
      ensures Drained(succeeds, old(jobs), jobs, more) && Scheduled(succeeds, old(jobs), user, more)
      decreases PendingCount(jobs), 2
    {
      HolderIsCounted(held, user);
      Release(user);
      assert HasFreeSlot(user);
      more := Drain(user);
    }

    // The extraction itself, as far as the jobs see it.
    method FinishJob(id: nat)
      requires Valid() && id < |jobs|
      modifies this`jobs, this`ran
      ensures Valid() && ran == old(ran) + [id]
      ensures jobs == old(jobs)[id := EndOf(old(jobs)[id], succeeds(id))]
      ensures PendingCount(jobs) <= PendingCount(old(jobs))
    {
      var user := jobs[id].user;
      var status := if succeeds(id) then Completed else Failed;
      FinishingKeepsCount(jobs, id, user, status);
      jobs := jobs[id := Job(user, Processing)];
      jobs := jobs[id := Job(user, status)];
      assert jobs == old(jobs)[id := Job(user, status)];
      ran := ran + [id];
    }

    // _drain_next_extract_for_user: the user's own oldest pending job if a slot is free, else
    // the oldest of all.
    method Drain(user: UserId) returns (ghost more: seq<nat>)
      requires Valid()
      modifies this
      ensures Valid() && Stopped()
      ensures held == old(held) && ran == old(ran) + more
      ensures Drained(succeeds, old(jobs), jobs, more)
      ensures old(HasFreeSlot(user)) && Oldest(old(jobs), Some(user)).Some? ==>
                more != [] && more[0] == Oldest(old(jobs), Some(user)).value
      ensures !(old(HasFreeSlot(user)) && Oldest(old(jobs), Some(user)).Some?) && more != [] ==>
                Oldest(old(jobs), None) == Some(more[0])
      ensures GoesOn(old(jobs), more)
      decreases PendingCount(jobs), 1
    {
      ghost var before, slots := jobs, held;
      TakenAndGiven(slots, user);
      var ok := TryClaim(user);
      if ok {
        var own := ClaimNextPending(Some(user));
        if own.Some? {
          more := RunClaimed(before, own.value);
          return;
        }
        Release(user);
      }
      more := DrainOldest();
    }

    // The second half of the drain: run the oldest job of all if its owner has a slot, else put
    // it back.
    method DrainOldest() returns (ghost more: seq<nat>)
      requires Valid()
      modifies this
      ensures Valid() && Stopped()
      ensures held == old(held) && ran == old(ran) + more
      ensures Drained(succeeds, old(jobs), jobs, more)
      ensures more != [] ==> Oldest(old(jobs), None) == Some(more[0])
      ensures GoesOn(old(jobs), more)
      decreases PendingCount(jobs), 0
    {
      ghost var before, slots := jobs, held;
      more := [];
      var oldest := ClaimNextPending(None);
      if oldest.None? {
        return;
      }
      OldestOfItsOwner(before, oldest.value);
      var owner := jobs[oldest.value].user;
      var ok := TryClaim(owner);
      if !ok {
        PutBack(before, oldest.value);
        return;
      }
      more := RunClaimed(before, oldest.value);
      TakenAndGiven(slots, owner);
    }

    method PutBack(ghost before: seq<Job>, id: nat)
      requires Valid() && Oldest(before, None) == Some(id)
      requires jobs == before[id := before[id].(status := Processing)] && !HasFreeSlot(before[id].user)
      modifies this`jobs
      ensures Valid() && Stopped() && jobs == before
    {
      jobs := jobs[id := jobs[id].(status := Pending)];
      assert jobs == before;
    }

    // _run_claimed_pending.
    method RunClaimed(ghost before: seq<Job>, id: nat) returns (ghost more: seq<nat>)
      requires Valid() && id < |before| && before[id].status.Pending?
      requires jobs == before[id := before[id].(status := Processing)]
      requires Oldest(before, Some(before[id].user)) == Some(id)
      requires held[before[id].user] > 0
      modifies this
      ensures Valid() && Stopped()
      ensures held == old(held) - multiset{before[id].user} && ran == old(ran) + more
      ensures Drained(succeeds, before, jobs, more)
      ensures more != [] && more[0] == id && GoesOn(before, more)
      decreases PendingCount(before), -1
    {
      PendingCountUpdate(before, id, before[id].(status := Processing));
      more := RunExtractJob(id);
      var ended := EndOf(before[id], succeeds(id));
      assert old(jobs)[id := ended] == before[id := ended];
      DrainedOneMore(succeeds, before, id, jobs, more);
      more := [id] + more;
    }

    // With nobody else holding a slot, a run leaves no pending extract behind.
    method RunAlone(id: nat)
      requires Valid() && id < |jobs| && held == multiset{jobs[id].user}
      requires maxJobs >= 1 && maxJobsPerUser >= 1
      modifies this
      ensures Valid() && held == multiset{}
      ensures forall i :: 0 <= i < |jobs| ==> !jobs[i].status.Pending?
    {
      ghost var more := RunExtractJob(id);
      assert held == multiset{};
      assert forall i :: 0 <= i < |jobs| && jobs[i].status.Pending? ==> Wanted(jobs[i], None);
    }

    // The admission block of extract_recipe. Exactly the admissions that schedule a run keep
    // the slot; every refusal, replay and failure gives it back.
    method AdmitExtract(user: UserId, openCount: nat, created: CreateResult, reserved: ReserveResult)
      returns (result: Admission)
      requires Valid()
      modifies this`guard, this`held
      ensures Valid()
      ensures held == if result == Started then old(held) + multiset{user} else old(held)
      ensures result == Started <==>
                && openCount < maxPendingPerUser && openCount == 0 && !workerEnabled && old(HasFreeSlot(user))
                && created == JobCreated && reserved == SpendReserved
      ensures result == QueueFull <==> openCount >= maxPendingPerUser
      ensures result == Replayed <==> openCount < maxPendingPerUser && created == ReplayedSame
      ensures result == Started || result == Queued <==>
                openCount < maxPendingPerUser && created == JobCreated && reserved == SpendReserved
    {
      if openCount >= maxPendingPerUser {
        return QueueFull;
      }
      var shouldStart := !workerEnabled && openCount == 0;
      var localClaimed := false;
      if shouldStart {
        localClaimed := TryClaim(user);
        shouldStart := localClaimed;
      }
      if created == ReplayedSame {
        if localClaimed {
          Release(user);
        }
        return Replayed;
      }
      if created != JobCreated || reserved != SpendReserved {
        // Both handlers release before anything else.
        if localClaimed {
          Release(user);
        }
        return Rejected;
      }
      return if shouldStart && !workerEnabled then Started else Queued;
    }
  }
}
