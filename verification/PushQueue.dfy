/**
 The push-delivery queue: leases, stale workers, retries with an attempt cap, and devices
 that change accounts. Each function of the source is one transaction and one step here.
 */
module PushQueue {
  import opened Arithmetic
  import opened Options

  type UserId = string
  type JobId = string
  type TokenHash = string
  type Time = int  // seconds

  const MAX_ATTEMPTS: nat := 8
  const LEASE_SECONDS: int := 90
  const MAX_RETRY_SECONDS: int := 3600

  datatype Status = Pending | Processing | Sent | Failed

  datatype Device = Device(user: UserId, token: string)

  datatype Row = Row(
    user: UserId,
    deviceToken: Option<string>,
    status: Status,
    attempts: nat,
    nextAttemptAt: Time,
    leaseUntil: Option<Time>,
    createdAt: Time)

  // A delivery is identified by its unique pair of job and device.
  datatype Id = Id(job: JobId, device: TokenHash)

  datatype State = State(now: Time, devices: map<TokenHash, Device>, deliveries: map<Id, Row>)

  datatype Verdict = WasSent | Retry(afterSeconds: int) | InvalidDevice | WasRejected

  predicate Active(row: Row) {
    row.status.Pending? || row.status.Processing?
  }

  // ---------------------------------------------------------------- statements

  function Register(s: State, user: UserId, device: TokenHash, token: string): State {
    s.(devices := s.devices[device := Device(user, token)],
       deliveries := map id | id in s.deliveries && !(id.device == device && s.deliveries[id].user != user) ::
         s.deliveries[id])
  }

  function Unregister(s: State, user: UserId, device: TokenHash): State {
    s.(devices := map d | d in s.devices && !(d == device && s.devices[d].user == user) :: s.devices[d],
       deliveries := map id | id in s.deliveries && !(id.device == device && s.deliveries[id].user == user) ::
         s.deliveries[id])
  }

  function DeleteAccount(s: State, user: UserId): State {
    s.(devices := map d | d in s.devices && s.devices[d].user != user :: s.devices[d],
       deliveries := map id | id in s.deliveries && s.deliveries[id].user != user :: s.deliveries[id])
  }

  // The completion trigger: one pending row for each device of the job's recipients.
  function Queued(s: State, job: JobId, recipients: set<UserId>): map<Id, Row> {
    map d | d in s.devices && s.devices[d].user in recipients && Id(job, d) !in s.deliveries ::
      Id(job, d) := Row(s.devices[d].user, Some(s.devices[d].token), Pending, 0, s.now, None, s.now)
  }

  function Enqueue(s: State, job: JobId, recipients: set<UserId>): State {
    s.(deliveries := s.deliveries + Queued(s, job, recipients))
  }

  predicate Exhausted(s: State, row: Row) {
    row.status.Processing? && row.attempts >= MAX_ATTEMPTS && row.leaseUntil.Some? && row.leaseUntil.value < s.now
  }

  predicate Claimable(s: State, row: Row) {
    && row.attempts < MAX_ATTEMPTS
    && row.deviceToken.Some?
    && (|| (row.status.Pending? && row.nextAttemptAt <= s.now)
        || (row.status.Processing? && row.leaseUntil.Some? && row.leaseUntil.value < s.now))
  }

  predicate Earlier(a: Row, b: Row) {
    a.nextAttemptAt < b.nextAttemptAt || (a.nextAttemptAt == b.nextAttemptAt && a.createdAt < b.createdAt)
  }

  // A row the claim may take: claimable, not locked by another transaction, and none of those
  // comes before it. No row only when there is none.
  ghost predicate IsCandidate(s: State, locked: set<Id>, choice: Option<Id>) {
    match choice
    case None => forall id :: id in s.deliveries && id !in locked ==> !Claimable(s, s.deliveries[id])
    case Some(c) =>
      && c in s.deliveries && c !in locked && Claimable(s, s.deliveries[c])
      && (forall id :: id in s.deliveries && id !in locked && Claimable(s, s.deliveries[id]) ==>
            !Earlier(s.deliveries[id], s.deliveries[c]))
  }

  function ClaimedRow(s: State, row: Row): Row {
    row.(status := Processing, attempts := row.attempts + 1, leaseUntil := Some(s.now + LEASE_SECONDS))
  }

  function Closed(row: Row, st: Status): Row {
    row.(status := st, deviceToken := None, leaseUntil := None)
  }

  function Claim(s: State, choice: Option<Id>): State {
    s.(deliveries := map id | id in s.deliveries ::
         if Exhausted(s, s.deliveries[id]) then Closed(s.deliveries[id], Failed)
         else if choice == Some(id) then ClaimedRow(s, s.deliveries[id])
         else s.deliveries[id])
  }

  // What the claim hands to the worker: the joins with the registered device drop the row of
  // a device that is gone or belongs to somebody else.
  function Handed(s: State, choice: Option<Id>): Option<Id> {
    if choice.Some? && choice.value in s.deliveries && choice.value.device in s.devices &&
       s.devices[choice.value.device].user == s.deliveries[choice.value].user
    then choice else None
  }

  function Clamp(x: int, lo: int, hi: int): int {
    if x < lo then lo else if x > hi then hi else x
  }

  function Retried(s: State, row: Row, afterSeconds: int): Row {
    row.(status := if row.attempts >= MAX_ATTEMPTS then Failed else Pending,
         deviceToken := if row.attempts >= MAX_ATTEMPTS then None else row.deviceToken,
         nextAttemptAt := s.now + Clamp(afterSeconds, 1, MAX_RETRY_SECONDS),
         leaseUntil := None)
  }

  // What a worker reports, however late and about whatever row. `user` is the user the worker
  // was told when it claimed.
  function Finish(s: State, id: Id, user: UserId, v: Verdict): State {
    if v.InvalidDevice? then
      s.(deliveries := map k | k in s.deliveries ::
           if k.device == id.device && s.deliveries[k].user == user && Active(s.deliveries[k])
           then Closed(s.deliveries[k], Failed) else s.deliveries[k],
         devices := map d | d in s.devices && !(d == id.device && s.devices[d].user == user) :: s.devices[d])
    else if id !in s.deliveries || !s.deliveries[id].status.Processing? then s
    else
      var row := s.deliveries[id];
      s.(deliveries := s.deliveries[id := if v.Retry? then Retried(s, row, v.afterSeconds)
                                          else Closed(row, if v.WasSent? then Sent else Failed)])
  }

  // ---------------------------------------------------------------- runs

  datatype Action =
    | DoTick(dt: nat)
    | DoRegister(user: UserId, device: TokenHash, token: string)
    | DoUnregister(user: UserId, device: TokenHash)
    | DoDeleteAccount(user: UserId)
    | DoEnqueue(job: JobId, recipients: set<UserId>)
    | DoClaim(locked: set<Id>, choice: Option<Id>)
    | DoFinish(id: Id, user: UserId, verdict: Verdict)

  ghost function Apply(s: State, a: Action): State {
    match a
    case DoTick(dt) => s.(now := s.now + dt)
    case DoRegister(u, d, token) => Register(s, u, d, token)
    case DoUnregister(u, d) => Unregister(s, u, d)
    case DoDeleteAccount(u) => DeleteAccount(s, u)
    case DoEnqueue(job, recipients) => Enqueue(s, job, recipients)
    case DoClaim(locked, choice) => if IsCandidate(s, locked, choice) then Claim(s, choice) else s
    case DoFinish(id, user, v) => Finish(s, id, user, v)
  }

  ghost function Exec(s: State, acts: seq<Action>): State
    decreases |acts|
  {
    if acts == [] then s else Exec(Apply(s, acts[0]), acts[1..])
  }

  lemma {:induction false} ExecAppend(s: State, a: seq<Action>, b: seq<Action>)
    ensures Exec(s, a + b) == Exec(Exec(s, a), b)
    decreases |a|
  {
    if a == [] {
      assert a + b == b;
    } else {
      assert (a + b)[0] == a[0] && (a + b)[1..] == a[1..] + b;
      ExecAppend(Apply(s, a[0]), a[1..], b);
    }
  }

  function Initial(now: Time): State {
    State(now, map[], map[])
  }

  // ---------------------------------------------------------------- the invariant

  predicate RowSound(row: Row) {
    && row.attempts <= MAX_ATTEMPTS
    && (Active(row) <==> row.deviceToken.Some?)
    && (row.status.Pending? ==> row.attempts < MAX_ATTEMPTS)
    && (row.status.Processing? <==> row.leaseUntil.Some?)
    && (row.status.Processing? ==> 1 <= row.attempts)
  }

  ghost predicate Shaped(s: State) {
    forall id :: id in s.deliveries ==> RowSound(s.deliveries[id])
  }

  // Every delivery of a registered device names the account that owns the device now.
  ghost predicate Owned(s: State) {
    forall id :: id in s.deliveries && id.device in s.devices ==> s.deliveries[id].user == s.devices[id.device].user
  }

  ghost predicate Inv(s: State) {
    Shaped(s) && Owned(s)
  }

  lemma ApplyKeepsInv(s: State, a: Action)
    requires Inv(s)
    ensures Inv(Apply(s, a))
  {
    match a
    case DoTick(dt) =>
    case DoRegister(u, d, token) =>
    case DoUnregister(u, d) =>
    case DoDeleteAccount(u) =>
    case DoEnqueue(job, recipients) => EnqueueKeepsInv(s, job, recipients);
    case DoClaim(locked, choice) =>
    case DoFinish(id, user, v) => FinishKeepsInv(s, id, user, v);
  }

  lemma EnqueueKeepsInv(s: State, job: JobId, recipients: set<UserId>)
    requires Inv(s)
    ensures Inv(Enqueue(s, job, recipients))
  {
    var t := Enqueue(s, job, recipients);
    forall id | id in t.deliveries
      ensures RowSound(t.deliveries[id])
      ensures id.device in t.devices ==> t.deliveries[id].user == t.devices[id.device].user
    {
      assert id in s.deliveries ==> t.deliveries[id] == s.deliveries[id];
    }
  }

  lemma FinishKeepsInv(s: State, id: Id, user: UserId, v: Verdict)
    requires Inv(s)
    ensures Inv(Finish(s, id, user, v))
  {
    if !v.InvalidDevice? && id in s.deliveries {
      assert RowSound(s.deliveries[id]);
    }
  }

  // The shape of every row and the ownership of every delivery, on every run: any number of
  // workers, expired leases, stale reports, re-registrations and deletions.
  lemma {:induction false} RunKeepsInv(s: State, acts: seq<Action>)
    requires Inv(s)
    ensures Inv(Exec(s, acts))
    decreases |acts|
  {
    if acts != [] {
      ApplyKeepsInv(s, acts[0]);
      RunKeepsInv(Apply(s, acts[0]), acts[1..]);
    }
  }

  // A delivery is only ever handed out for the device's present owner; and once claimed it is
  // handed out whenever its device is still registered, so the join on the user drops nothing.
  lemma HandedToOwner(now: Time, acts: seq<Action>, locked: set<Id>, choice: Option<Id>)
    requires IsCandidate(Exec(Initial(now), acts), locked, choice)
    ensures var t := Claim(Exec(Initial(now), acts), choice);
            && (choice.Some? && choice.value.device in t.devices ==> Handed(t, choice) == choice)
            && (Handed(t, choice).Some? ==>
                  && t.devices[choice.value.device].user == t.deliveries[choice.value].user
                  && t.deliveries[choice.value].deviceToken.Some?)
  {
    RunKeepsInv(Initial(now), acts);
    ApplyKeepsInv(Exec(Initial(now), acts), DoClaim(locked, choice));
    assert choice.Some? ==> RowSound(Claim(Exec(Initial(now), acts), choice).deliveries[choice.value]);
  }

  // ---------------------------------------------------------------- termination

  function Rank(st: Status): nat {
    match st
    case Processing => 2
    case Pending => 1
    case Sent => 0
    case Failed => 0
  }

  // The lexicographic measure (8 - attempts, processing > pending > terminal) in one number.
  function Measure(row: Row): nat
    requires RowSound(row)
  {
    3 * (MAX_ATTEMPTS - row.attempts) + Rank(row.status)
  }

  // Every change of a row decreases its measure, attempts never fall, and a terminal row never
  // changes at all.
  lemma ChangeDecreases(s: State, a: Action, id: Id)
    requires Inv(s) && id in s.deliveries && id in Apply(s, a).deliveries
    ensures var row, row' := s.deliveries[id], Apply(s, a).deliveries[id];
            && RowSound(row')
            && row.attempts <= row'.attempts
            && (row' != row ==> Active(row) && Measure(row') < Measure(row))
  {
    ApplyKeepsInv(s, a);
    assert RowSound(s.deliveries[id]) && RowSound(Apply(s, a).deliveries[id]);
  }

  // The row exists from here to the end of the run.
  ghost predicate Persists(s: State, acts: seq<Action>, id: Id)
    decreases |acts|
  {
    id in s.deliveries &&
    (acts != [] ==> id in Apply(s, acts[0]).deliveries && Persists(Apply(s, acts[0]), acts[1..], id))
  }

  ghost function Changes(s: State, acts: seq<Action>, id: Id): nat
    requires Persists(s, acts, id)
    decreases |acts|
  {
    if acts == [] then 0
    else
      var t := Apply(s, acts[0]);
      (if t.deliveries[id] != s.deliveries[id] then 1 else 0) + Changes(t, acts[1..], id)
  }

  ghost predicate Claims(s: State, a: Action, id: Id) {
    a.DoClaim? && a.choice == Some(id) && IsCandidate(s, a.locked, a.choice)
  }

  ghost function ClaimCount(s: State, acts: seq<Action>, id: Id): nat
    decreases |acts|
  {
    if acts == [] then 0
    else (if Claims(s, acts[0], id) then 1 else 0) + ClaimCount(Apply(s, acts[0]), acts[1..], id)
  }

  // As long as a row exists, its attempts count its claims exactly, so it is claimed at most
  // eight times; and it changes at most as often as its measure allows, 25 times when new.
  lemma {:induction false} DeliveryTerminates(s: State, acts: seq<Action>, id: Id)
    requires Inv(s) && Persists(s, acts, id)
    ensures var t := Exec(s, acts);
            && id in t.deliveries && RowSound(t.deliveries[id])
            && t.deliveries[id].attempts == s.deliveries[id].attempts + ClaimCount(s, acts, id)
            && Changes(s, acts, id) + Measure(t.deliveries[id]) <= Measure(s.deliveries[id]) <= 26
            && ClaimCount(s, acts, id) <= 8
    decreases |acts|
  {
    assert RowSound(s.deliveries[id]);
    if acts != [] {
      ChangeDecreases(s, acts[0], id);
      ApplyKeepsInv(s, acts[0]);
      AttemptsCountClaims(s, acts[0], id);
      DeliveryTerminates(Apply(s, acts[0]), acts[1..], id);
    }
  }

  lemma AttemptsCountClaims(s: State, a: Action, id: Id)
    requires Inv(s) && id in s.deliveries && id in Apply(s, a).deliveries
    ensures Apply(s, a).deliveries[id].attempts == s.deliveries[id].attempts + (if Claims(s, a, id) then 1 else 0)
  {
  }

  // No active row is stuck: once its retry time and its lease have passed, a claim by an
  // unhindered worker either may take it or closes it.
  lemma NoRowIsStuck(s: State, id: Id)
    requires Inv(s) && id in s.deliveries && Active(s.deliveries[id])
    requires s.deliveries[id].nextAttemptAt <= s.now
    requires s.deliveries[id].leaseUntil.Some? ==> s.deliveries[id].leaseUntil.value < s.now
    ensures var row := s.deliveries[id];
            && (Claimable(s, row) <==> row.attempts < MAX_ATTEMPTS)
            && (!Claimable(s, row) ==> forall choice :: !Active(Claim(s, choice).deliveries[id]))
            && !IsCandidate(s, {}, if Claimable(s, row) then None else Some(id))
  {
    assert RowSound(s.deliveries[id]);
  }

  // ---------------------------------------------------------------- rows column by column

  // What a claim does to each row. A row is taken exactly if it is the chosen one: it is then
  // processing under a lease of 90 seconds, one attempt on, and otherwise as it was. Rows in
  // their eighth attempt whose lease has run out are closed as failed; all others stay.
  lemma ClaimExactly(s: State, locked: set<Id>, choice: Option<Id>, id: Id)
    requires Inv(s) && IsCandidate(s, locked, choice) && id in s.deliveries
    ensures var row, row' := s.deliveries[id], Claim(s, choice).deliveries[id];
            var lapsed := row.leaseUntil.Some? && row.leaseUntil.value < s.now;
            && (choice == Some(id) ==>
                  && id !in locked && row.attempts < 8 && row.deviceToken.Some?
                  && ((row.status == Pending && row.nextAttemptAt <= s.now) || (row.status == Processing && lapsed))
                  && row' == Row(row.user, row.deviceToken, Processing, row.attempts + 1, row.nextAttemptAt,
                                 Some(s.now + 90), row.createdAt))
            && (choice != Some(id) && row.status == Processing && row.attempts == 8 && lapsed ==>
                  row' == Row(row.user, None, Failed, 8, row.nextAttemptAt, None, row.createdAt))
            && (choice != Some(id) && !(row.status == Processing && row.attempts == 8 && lapsed) ==> row' == row)
  {
    assert RowSound(s.deliveries[id]);
  }

  // While a lease runs, and before a retry is due, no claim by anybody touches the row.
  lemma LeaseHolds(s: State, locked: set<Id>, choice: Option<Id>, id: Id)
    requires Inv(s) && IsCandidate(s, locked, choice) && id in s.deliveries
    requires (s.deliveries[id].status == Processing && s.deliveries[id].leaseUntil.value >= s.now)
          || (s.deliveries[id].status == Pending && s.deliveries[id].nextAttemptAt > s.now)
    ensures Claim(s, choice).deliveries[id] == s.deliveries[id]
  {
    ClaimExactly(s, locked, choice, id);
  }

  // The candidate is the first due: nobody unlocked and claimable was due before it, or due
  // with it and created before it.
  lemma FirstDueIsTaken(s: State, locked: set<Id>, c: Id, id: Id)
    requires Inv(s) && IsCandidate(s, locked, Some(c))
    requires id in s.deliveries && id !in locked && Active(s.deliveries[id])
    requires s.deliveries[id].attempts < 8
    requires s.deliveries[id].status == Pending ==> s.deliveries[id].nextAttemptAt <= s.now
    requires s.deliveries[id].status == Processing ==> s.deliveries[id].leaseUntil.value < s.now
    ensures var row, first := s.deliveries[id], s.deliveries[c];
            || first.nextAttemptAt < row.nextAttemptAt
            || (first.nextAttemptAt == row.nextAttemptAt && first.createdAt <= row.createdAt)
  {
    assert RowSound(s.deliveries[id]);
    assert Claimable(s, s.deliveries[id]);
  }

  // What a report does to the rows and devices, for each of the four results.
  lemma ReportExactly(s: State, id: Id, user: UserId, v: Verdict, k: Id)
    requires Inv(s) && k in s.deliveries
    ensures k in Finish(s, id, user, v).deliveries
    ensures var row, row' := s.deliveries[k], Finish(s, id, user, v).deliveries[k];
            var concerned := k == id && row.status == Processing;
            && (v == WasSent && concerned ==>
                  row'.status == Sent && row'.deviceToken == None && row'.leaseUntil == None)
            && (v == WasRejected && concerned ==>
                  row'.status == Failed && row'.deviceToken == None && row'.leaseUntil == None)
            && (v.Retry? && concerned ==>
                  && row'.leaseUntil == None && 1 <= row'.nextAttemptAt - s.now <= 3600
                  && row'.status == (if row.attempts < 8 then Pending else Failed)
                  && row'.deviceToken == (if row.attempts < 8 then row.deviceToken else None))
            && (v == InvalidDevice && k.device == id.device && row.user == user ==>
                  row'.status == (if row.status == Sent then Sent else Failed) && row'.deviceToken == None)
            && (!concerned && v != InvalidDevice ==> row' == row)
            && (v == InvalidDevice && (k.device != id.device || row.user != user) ==> row' == row)
            && row'.attempts == row.attempts && row'.user == row.user && row'.createdAt == row.createdAt
    ensures v != InvalidDevice ==> Finish(s, id, user, v).devices == s.devices
    ensures var devices := Finish(s, id, user, v).devices;
            v == InvalidDevice ==>
              && (id.device in devices ==> devices[id.device].user != user)
              && (forall d :: d in s.devices && (d != id.device || s.devices[d].user != user) ==>
                    d in devices && devices[d] == s.devices[d])
  {
    assert RowSound(s.deliveries[k]);
  }

  // A report that this delivery was sent, while it was being processed.
  ghost predicate SentReport(s: State, a: Action, id: Id) {
    && a.DoFinish? && a.id == id && a.verdict == WasSent
    && id in s.deliveries && s.deliveries[id].status == Processing
  }

  ghost predicate SentSometime(s: State, acts: seq<Action>, id: Id)
    decreases |acts|
  {
    acts != [] && (SentReport(s, acts[0], id) || SentSometime(Apply(s, acts[0]), acts[1..], id))
  }

  // Along the life of a row it becomes sent exactly by a report of the push service's success
  // that meets it while it is processing; never by retries, exhaustion or anything else.
  lemma {:induction false} SentExactly(s: State, acts: seq<Action>, id: Id)
    requires Inv(s) && Persists(s, acts, id)
    ensures id in Exec(s, acts).deliveries
    ensures Exec(s, acts).deliveries[id].status == Sent <==>
              s.deliveries[id].status == Sent || SentSometime(s, acts, id)
    decreases |acts|
  {
    if acts != [] {
      ApplyKeepsInv(s, acts[0]);
      SentStep(s, acts[0], id);
      SentExactly(Apply(s, acts[0]), acts[1..], id);
    }
  }

  lemma SentStep(s: State, a: Action, id: Id)
    requires Inv(s) && id in s.deliveries && id in Apply(s, a).deliveries
    ensures Apply(s, a).deliveries[id].status == Sent <==> s.deliveries[id].status == Sent || SentReport(s, a, id)
  {
    if a.DoFinish? {
      ReportExactly(s, a.id, a.user, a.verdict, id);
    } else if a.DoClaim? && IsCandidate(s, a.locked, a.choice) {
      ClaimExactly(s, a.locked, a.choice, id);
    }
  }

  // After a registration the device is the new account's, and only deliveries of its former
  // owners are gone.
  lemma RegisterExactly(s: State, user: UserId, device: TokenHash, token: string, id: Id)
    ensures var t := Register(s, user, device, token);
            && t.devices == s.devices[device := Device(user, token)]
            && (id in t.deliveries <==> id in s.deliveries && (id.device == device ==> s.deliveries[id].user == user))
            && (id in t.deliveries ==> t.deliveries[id] == s.deliveries[id])
  {
  }

  // After it unregistered, the account has neither the device nor deliveries for it; whatever
  // belongs to another account or another device is untouched.
  lemma UnregisterExactly(s: State, user: UserId, device: TokenHash, id: Id, d: TokenHash)
    ensures var t := Unregister(s, user, device);
            && (d in t.devices <==> d in s.devices && (d == device ==> s.devices[d].user != user))
            && (d in t.devices ==> t.devices[d] == s.devices[d])
            && (id in t.deliveries <==> id in s.deliveries && (id.device == device ==> s.deliveries[id].user != user))
            && (id in t.deliveries ==> t.deliveries[id] == s.deliveries[id])
  {
  }

  // A deleted account has no devices and no deliveries; others keep theirs.
  lemma DeleteExactly(s: State, user: UserId, id: Id, d: TokenHash)
    ensures var t := DeleteAccount(s, user);
            && (d in t.devices <==> d in s.devices && s.devices[d].user != user)
            && (d in t.devices ==> t.devices[d] == s.devices[d])
            && (id in t.deliveries <==> id in s.deliveries && s.deliveries[id].user != user)
            && (id in t.deliveries ==> t.deliveries[id] == s.deliveries[id])
  {
  }

  // A completion adds exactly one row for each device of a recipient that has none for this
  // job yet: pending, due at once, not yet attempted, for the owner and the token of the device.
  lemma EnqueueExactly(s: State, job: JobId, recipients: set<UserId>, id: Id)
    ensures var t := Enqueue(s, job, recipients);
            var wanted := id.job == job && id.device in s.devices && s.devices[id.device].user in recipients;
            && t.devices == s.devices
            && (id in s.deliveries ==> id in t.deliveries && t.deliveries[id] == s.deliveries[id])
            && (id !in s.deliveries ==> (id in t.deliveries <==> wanted))
            && (id !in s.deliveries && wanted ==>
                  t.deliveries[id] == Row(s.devices[id.device].user, Some(s.devices[id.device].token), Pending, 0,
                                          s.now, None, s.now))
  {
    assert id == Id(id.job, id.device);
  }

  // ---------------------------------------------------------------- the worker's backoff

  function Pow2(n: nat): nat {
    if n == 0 then 1 else 2 * Pow2(n - 1)
  }

  function RetryAfter(attempts: nat, reported: int): int {
    Max(reported, Min(5 * Pow2(if attempts == 0 then 0 else attempts - 1), MAX_RETRY_SECONDS))
  }

  lemma {:induction false} Pow2Monotone(m: nat, n: nat)
    requires m <= n
    ensures 1 <= Pow2(m) <= Pow2(n)
    decreases n
  {
    if m < n {
      Pow2Monotone(m, n - 1);
    } else if n > 0 {
      Pow2Monotone(m - 1, n - 1);
    }
  }

  // For every row a claim can hand out, the eighth attempt included, and every delay reported:
  // the worker's own cap of one hour never binds, so the next attempt would come after the
  // longer of the reported delay and 5 s doubled with every attempt, capped once, at an hour;
  // and it comes unless this was the eighth, which closes the row.
  lemma BackoffIsExact(s: State, row: Row, reported: int)
    requires RowSound(row) && row.status.Processing?
    ensures var after := Retried(s, row, RetryAfter(row.attempts, reported));
            var backoff := 5 * Pow2(row.attempts - 1);
            && 5 <= backoff <= 640
            && after.nextAttemptAt - s.now == Min(Max(reported, backoff), 3600)
            && (after.status.Pending? <==> row.attempts < 8)
            && (after.status.Failed? <==> row.attempts == 8)
  {
    Pow2Monotone(row.attempts - 1, 7);
    Pow2Monotone(0, row.attempts - 1);
    assert Pow2(7) == 128 by {
      assert Pow2(3) == 8 && Pow2(5) == 4 * Pow2(3) && Pow2(7) == 4 * Pow2(5);
    }
  }

  // What a worker reports of a delivery claimed for the attempts-th time: the answer of the
  // push service with its own backoff, or a retry in a minute after an exception.
  function Report(attempts: nat, answer: Verdict, raised: bool): Verdict {
    if raised then Retry(60)
    else if answer.Retry? then Retry(RetryAfter(attempts, answer.afterSeconds)) else answer
  }

  // ---------------------------------------------------------------- the functions of the source

  class PushStore {
    var now: Time
    var devices: map<TokenHash, Device>
    var deliveries: map<Id, Row>
    ghost var trace: seq<Action>
    ghost const start: Time

    function Model(): State
      reads this
    {
      State(now, devices, deliveries)
    }

    // The tables are those of a run, and hence sound.
    ghost predicate Valid()
      reads this
    {
      Model() == Exec(Initial(start), trace) && Inv(Model())
    }

    constructor (start: Time)
      ensures Valid() && trace == [] && Model() == Initial(start)
    {
      this.start := start;
      now, devices, deliveries, trace := start, map[], map[], [];
    }

    // Books the action whose effect has just been made on the tables.
    ghost method Book(a: Action, before: State)
      requires before == Exec(Initial(start), trace) && Inv(before) && Model() == Apply(before, a)
      modifies this`trace
      ensures Valid() && trace == old(trace) + [a]
    {
      ExecAppend(Initial(start), trace, [a]);
      ApplyKeepsInv(before, a);
      trace := trace + [a];
    }

    method UpsertPushDevice(user: UserId, device: TokenHash, token: string)
      requires Valid()
      modifies this
      ensures Valid() && trace == old(trace) + [DoRegister(user, device, token)]
      ensures Model() == Register(old(Model()), user, device, token)
    {
      ghost var before := Model();
      devices := devices[device := Device(user, token)];
      // A device changing accounts must not receive what was queued for its former owner.
      deliveries := map id | id in deliveries && !(id.device == device && deliveries[id].user != user) ::
        deliveries[id];
      Book(DoRegister(user, device, token), before);
    }

    method DeletePushDevice(user: UserId, device: TokenHash)
      requires Valid()
      modifies this
      ensures Valid() && trace == old(trace) + [DoUnregister(user, device)]
      ensures Model() == Unregister(old(Model()), user, device)
      ensures device in devices ==> devices[device].user != user
      ensures forall id :: id in deliveries && id.device == device ==> deliveries[id].user != user
    {
      ghost var before := Model();
      deliveries := map id | id in deliveries && !(id.device == device && deliveries[id].user == user) ::
        deliveries[id];
      devices := map d | d in devices && !(d == device && devices[d].user == user) :: devices[d];
      Book(DoUnregister(user, device), before);
    }

    // The statements of an account deletion that concern pushes.
    method DeleteAccountPushes(user: UserId)
      requires Valid()
      modifies this
      ensures Valid() && trace == old(trace) + [DoDeleteAccount(user)]
      ensures Model() == DeleteAccount(old(Model()), user)
    {
      ghost var before := Model();
      deliveries := map id | id in deliveries && deliveries[id].user != user :: deliveries[id];
      devices := map d | d in devices && devices[d].user != user :: devices[d];
      Book(DoDeleteAccount(user), before);
    }

    // The trigger of a completed job: on conflict do nothing.
    method EnqueueCompletionPushes(job: JobId, recipients: set<UserId>)
      requires Valid()
      modifies this
      ensures Valid() && trace == old(trace) + [DoEnqueue(job, recipients)]
      ensures Model() == Enqueue(old(Model()), job, recipients)
    {
      ghost var before := Model();
      deliveries := deliveries + Queued(Model(), job, recipients);
      Book(DoEnqueue(job, recipients), before);
    }

    // order by next_attempt_at, created_at for update skip locked limit 1.
    method FindCandidate(locked: set<Id>) returns (choice: Option<Id>)
      ensures IsCandidate(Model(), locked, choice)
    {
      choice := None;
      var left := deliveries.Keys;
      while left != {}
        invariant left <= deliveries.Keys
        invariant choice.Some? ==>
                    && choice.value in deliveries && choice.value !in locked
                    && Claimable(Model(), deliveries[choice.value])
        invariant forall id ::
                    id in deliveries && id !in left && id !in locked && Claimable(Model(), deliveries[id]) ==>
                    choice.Some? && !Earlier(deliveries[id], deliveries[choice.value])
        decreases left
      {
        var id :| id in left;
        left := left - {id};
        if id !in locked && Claimable(Model(), deliveries[id]) &&
           (choice.None? || Earlier(deliveries[id], deliveries[choice.value])) {
          choice := Some(id);
        }
      }
    }

    // The two updates of the claim: exhausted rows are closed, the candidate is taken.
    method SweepAndTake(choice: Option<Id>)
      requires choice.Some? ==> choice.value in deliveries && Claimable(Model(), deliveries[choice.value])
      modifies this`deliveries
      ensures Model() == Claim(old(Model()), choice)
    {
      ghost var before := Model();
      var swept := map id | id in deliveries ::
        if Exhausted(Model(), deliveries[id]) then Closed(deliveries[id], Failed) else deliveries[id];
      if choice.Some? {
        swept := swept[choice.value := ClaimedRow(Model(), deliveries[choice.value])];
      }
      deliveries := swept;
      assert deliveries == Claim(before, choice).deliveries;
    }

    method ClaimPushDelivery(locked: set<Id>) returns (handed: Option<Id>, ghost choice: Option<Id>)
      requires Valid()
      modifies this
      ensures Valid() && trace == old(trace) + [DoClaim(locked, choice)]
      ensures IsCandidate(old(Model()), locked, choice) && Model() == Claim(old(Model()), choice)
      ensures handed == Handed(Model(), choice)
    {
      ghost var before := Model();
      var candidate := FindCandidate(locked);
      SweepAndTake(candidate);
      choice := candidate;
      Book(DoClaim(locked, choice), before);
      handed := Handed(Model(), candidate);
    }

    method FinishPushDelivery(id: Id, user: UserId, v: Verdict)
      requires Valid()
      modifies this
      ensures Valid() && trace == old(trace) + [DoFinish(id, user, v)]
      ensures Model() == Finish(old(Model()), id, user, v)
      ensures id in old(deliveries) && old(deliveries)[id].status == Processing && v != InvalidDevice ==>
                && id in deliveries
                && (v == WasSent ==> deliveries[id].status == Sent)
                && (v == WasRejected ==> deliveries[id].status == Failed)
                && (v.Retry? ==> deliveries[id].status == if old(deliveries)[id].attempts < 8 then Pending else Failed)
      ensures v == InvalidDevice ==>
                && (id.device in devices ==> devices[id.device].user != user)
                && (forall k :: k in deliveries && k.device == id.device && deliveries[k].user == user ==>
                      !Active(deliveries[k]))
    {
      ghost var before := Model();
      assert id in deliveries ==> RowSound(deliveries[id]);
      if v.InvalidDevice? {
        deliveries := map k | k in deliveries ::
          if k.device == id.device && deliveries[k].user == user && Active(deliveries[k])
          then Closed(deliveries[k], Failed) else deliveries[k];
        devices := map d | d in devices && !(d == id.device && devices[d].user == user) :: devices[d];
      } else if id in deliveries && deliveries[id].status.Processing? {
        if v.Retry? {
          deliveries := deliveries[id := Retried(Model(), deliveries[id], v.afterSeconds)];
        } else {
          deliveries := deliveries[id := Closed(deliveries[id], if v.WasSent? then Sent else Failed)];
        }
      }
      Book(DoFinish(id, user, v), before);
    }

    // Any number of actions of others, while the push service is asked. The body stands for
    // none; callers rely on the contract.
    method Interfere()
      requires Valid()
      modifies this
      ensures Valid() && old(trace) <= trace
    {
    }

    // _run_push_delivery: ask the push service, then report; an exception reports a retry. The
    // report is about the delivery as it was claimed, whatever became of it meanwhile.
    method RunPushDelivery(id: Id, user: UserId, attempts: nat, answer: Verdict, raised: bool)
      requires Valid()
      modifies this
      ensures Valid() && |old(trace)| < |trace| && old(trace) <= trace
      ensures var n := |trace| - 1;
              && trace[n] == DoFinish(id, user, Report(attempts, answer, raised))
              && Model() == Finish(Exec(Initial(start), trace[..n]), id, user, Report(attempts, answer, raised))
    {
      Interfere();
      var verdict := answer;
      if raised {
        verdict := Retry(60);
      } else if answer.Retry? {
        var backoff := Min(5 * Pow2(if attempts == 0 then 0 else attempts - 1), MAX_RETRY_SECONDS);
        verdict := Retry(Max(answer.afterSeconds, backoff));
      }
      ghost var before := trace;
      FinishPushDelivery(id, user, verdict);
      assert trace[..|trace| - 1] == before;
    }
  }
}
