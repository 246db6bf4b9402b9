/**
 The reconciliation of one profile's subscription by three writers: Superwall webhooks,
 Apple server notifications and StoreKit restores.

 Every SQL statement is one atomic step. A delivery is a small program whose position is
 its `Pc`; deliveries of the same or of different events interleave at every statement,
 may be repeated, may raise at any statement and may stop for ever at any statement.
 */
module Subscriptions {
  import opened Options

  type UserId = string

  // Microseconds since the epoch, the resolution of the source's datetimes.
  type Time = int

  const MAX_EVENT_AGE: int := 7 * 24 * 60 * 60 * 1_000_000
  const MAX_EVENT_SKEW: int := 300 * 1_000_000

  // The three families of handled Superwall event names, and every other name.
  datatype Kind = ProOn | ProOff | ProStaysOn | OtherName

  // The time of a Superwall webhook that carries no usable timestamp is not its own: every
  // delivery takes the clock as it finds it. Such an event is not `dated`.
  datatype Event =
    | Superwall(id: string, user: Option<UserId>, at: Time, dated: bool, kind: Kind, expires: Option<Time>)
    | Apple(id: string, user: Option<UserId>, at: Time, off: bool, expires: Option<Time>)
    | Restore(id: string, user: Option<UserId>, at: Time, expires: Option<Time>)

  predicate Dated(e: Event) {
    e.Superwall? ==> e.dated
  }

  // What a delivery makes of it when its clock reads `clock`.
  function Arrived(e: Event, clock: Time): Event {
    if Dated(e) then e else Superwall(e.id, e.user, clock, false, e.kind, e.expires)
  }

  // What the sender sent: without a timestamp of its own, the time says nothing.
  function AsSent(e: Event): Event {
    Arrived(e, 0)
  }

  // The value a profile keeps in subscription_event_id, and the primary key of the two
  // receipt tables. The source tells the writers apart by a prefix of the text.
  datatype Key = SuperwallKey(id: string) | AppleKey(id: string) | RestoreKey(id: string)

  function KeyOf(e: Event): Key {
    match e
    case Superwall(id, _, _, _, _, _) => SuperwallKey(id)
    case Apple(id, _, _, _, _) => AppleKey(id)
    case Restore(id, _, _, _) => RestoreKey(id)
  }

  datatype Grant = Grant(isPro: bool, expires: Option<Time>)

  // What an event writes when it is applied by a delivery whose clock reads `now`.
  function GrantOf(e: Event, now: Time): Grant {
    match e
    case Superwall(_, _, _, _, kind, expires) =>
      if kind == ProOn then Grant(true, expires)
      else if kind == ProOff then Grant(false, if expires.Some? then expires else Some(now))
      else if expires.Some? && expires.value <= now then Grant(false, expires)
      else Grant(true, expires)
    case Apple(_, _, _, off, expires) => Grant(!off, expires)
    case Restore(_, _, _, expires) => Grant(true, expires)
  }

  datatype Profile = Profile(deleted: bool, at: Option<Time>, id: Option<Key>, grant: Grant)

  datatype Outcome =
    | Updated | Duplicate | OutOfOrder | ProfileUnavailable
    | StaleEvent | NoUser | Unhandled
    | Replayed  // the receipt was already terminal
    | Errored   // the caller is told to retry
    | Crashed   // the process stopped; nobody is told anything

  // Skipped keeps the reason: Superwall stores it in the error column.
  datatype Status = Received | Failed | Processed | Skipped(reason: Outcome)

  // `setBy` is history, no column: the event, with its time, of the delivery that set the status.
  datatype Receipt = Receipt(event: Event, status: Status, setBy: Event)

  predicate Terminal(st: Status) {
    st.Processed? || st.Skipped?
  }

  datatype Pc =
    | ReadReceipt
    | InsertReceipt
    | RereadReceipt
    | ReadProfile
    | CompareAndSet(seenAt: Option<Time>, seenId: Option<Key>, clock: Time)
    | RereadProfile
    | Mark(status: Status, outcome: Outcome)
    | ConfirmMark(outcome: Outcome)
    | MarkFailed
    | Done(outcome: Outcome)

  datatype Delivery = Delivery(event: Event, pc: Pc)

  // History of the writes that reached a profile row. No column of the database.
  datatype Entry =
    | Wrote(user: UserId, event: Event, clock: Time)
    | Scrubbed(user: UserId)

  datatype State = State(
    profiles: map<UserId, Profile>,
    receipts: map<Key, Receipt>,
    deliveries: map<nat, Delivery>,
    log: seq<Entry>)

  const NO_GRANT := Grant(false, None)
  const FRESH_PROFILE := Profile(false, None, None, NO_GRANT)
  const INITIAL := State(map[], map[], map[], [])

  // ---------------------------------------------------------------- decisions

  // The checks made between the receipt and the profile.
  function Gate(e: Event, now: Time): Option<Outcome> {
    if e.Superwall? && (now - e.at > MAX_EVENT_AGE || now - e.at < -MAX_EVENT_SKEW) then Some(StaleEvent)
    else if e.user.None? then Some(NoUser)
    else if e.Superwall? && e.kind.OtherName? then Some(Unhandled)
    else None
  }

  // A profile time that makes event `e` out of order. Superwall lets a tie through.
  predicate Outranks(t: Time, e: Event) {
    if e.Superwall? then t > e.at else t >= e.at
  }

  // The ordering check. None means: go on and write.
  function Verdict(row: Option<Profile>, e: Event): Option<Outcome> {
    if row.None? || row.value.deleted then Some(ProfileUnavailable)
    else if row.value.id == Some(KeyOf(e)) then Some(Duplicate)
    else if row.value.at.Some? && Outranks(row.value.at.value, e) then Some(OutOfOrder)
    else None
  }

  function RowOf(profiles: map<UserId, Profile>, e: Event): Option<Profile> {
    if e.user.Some? && e.user.value in profiles then Some(profiles[e.user.value]) else None
  }

  function StatusFor(o: Outcome): Status {
    if o == Updated || o == Duplicate then Processed else Skipped(o)
  }

  // Webhooks mark their receipt; a restore has none.
  function Conclude(e: Event, o: Outcome): Pc {
    if e.Restore? then Done(o) else Mark(StatusFor(o), o)
  }

  // An exception reaches the handler that marks the receipt failed; a restore has no such handler.
  function Raise(e: Event): Pc {
    if e.Restore? then Done(Errored) else MarkFailed
  }

  function Admit(e: Event, now: Time): Pc {
    var gate := Gate(e, now);
    if gate.Some? then Conclude(e, gate.value) else ReadProfile
  }

  // ---------------------------------------------------------------- one statement

  function At(s: State, d: nat, pc: Pc): State
    requires d in s.deliveries
  {
    s.(deliveries := s.deliveries[d := s.deliveries[d].(pc := pc)])
  }

  predicate Matches(row: Option<Profile>, seenAt: Option<Time>, seenId: Option<Key>) {
    row.Some? && !row.value.deleted && row.value.at == seenAt && row.value.id == seenId
  }

  function Write(s: State, e: Event, clock: Time): State
    requires e.user.Some?
  {
    s.(profiles := s.profiles[e.user.value := Profile(false, Some(e.at), Some(KeyOf(e)), GrantOf(e, clock))],
       log := s.log + [Wrote(e.user.value, e, clock)])
  }

  predicate Open(s: State, k: Key) {
    k in s.receipts && !Terminal(s.receipts[k].status)
  }

  function SetStatus(s: State, e: Event, st: Status): State
    requires KeyOf(e) in s.receipts
  {
    s.(receipts := s.receipts[KeyOf(e) := s.receipts[KeyOf(e)].(status := st, setBy := e)])
  }

  function StepDelivery(s: State, d: nat, now: Time): State
    requires d in s.deliveries
  {
    var e := s.deliveries[d].event;
    var k := KeyOf(e);
    var row := RowOf(s.profiles, e);
    match s.deliveries[d].pc
    case ReadReceipt =>
      At(s, d, if k !in s.receipts then InsertReceipt
               else if Terminal(s.receipts[k].status) then Done(Replayed) else Admit(e, now))
    case InsertReceipt =>
      if k in s.receipts then At(s, d, RereadReceipt)
      else At(s.(receipts := s.receipts[k := Receipt(e, Received, e)]), d, Admit(e, now))
    case RereadReceipt =>
      At(s, d, if k !in s.receipts then Raise(e)
               else if Terminal(s.receipts[k].status) then Done(Replayed) else Admit(e, now))
    case ReadProfile =>
      var v := Verdict(row, e);
      At(s, d, if v.Some? then Conclude(e, v.value) else CompareAndSet(row.value.at, row.value.id, now))
    case CompareAndSet(seenAt, seenId, clock) =>
      if Matches(row, seenAt, seenId) then At(Write(s, e, clock), d, Conclude(e, Updated))
      else At(s, d, RereadProfile)
    case RereadProfile =>
      var v := Verdict(row, e);
      At(s, d, if v.Some? then Conclude(e, v.value) else Raise(e))
    case Mark(st, o) =>
      if Open(s, k) then At(SetStatus(s, e, st), d, Done(o)) else At(s, d, ConfirmMark(o))
    case ConfirmMark(o) =>
      At(s, d, if k in s.receipts && Terminal(s.receipts[k].status) then Done(o) else Raise(e))
    case MarkFailed =>
      At(if Open(s, k) then SetStatus(s, e, Failed) else s, d, Done(Errored))
    case Done(_) => s
  }

  // ---------------------------------------------------------------- runs

  datatype Action =
    | SignIn(user: UserId)
    | CloseAccount(user: UserId)
    | Deliver(d: nat, event: Event)
    | Step(d: nat, now: Time)
    | Fault(d: nat)
    | Crash(d: nat)

  function Apply(s: State, a: Action): State {
    match a
    case SignIn(u) =>
      s.(profiles := s.profiles[u := if u in s.profiles then s.profiles[u].(deleted := false) else FRESH_PROFILE])
    case CloseAccount(u) =>
      if u !in s.profiles then s
      else s.(profiles := s.profiles[u := s.profiles[u].(deleted := true, grant := NO_GRANT)],
              log := s.log + [Scrubbed(u)])
    case Deliver(d, e) =>
      if d in s.deliveries then s
      else s.(deliveries := s.deliveries[d := Delivery(e, if e.Restore? then ReadProfile else ReadReceipt)])
    case Step(d, now) =>
      if d in s.deliveries then StepDelivery(s, d, now) else s
    case Fault(d) =>
      if d !in s.deliveries || s.deliveries[d].pc.Done? then s
      else At(s, d, if s.deliveries[d].pc.MarkFailed? then Done(Errored) else Raise(s.deliveries[d].event))
    case Crash(d) =>
      if d !in s.deliveries || s.deliveries[d].pc.Done? then s else At(s, d, Done(Crashed))
  }

  function Exec(s: State, acts: seq<Action>): State
    decreases |acts|
  {
    if acts == [] then s else Exec(Apply(s, acts[0]), acts[1..])
  }

  lemma {:induction false} ExecAppend(s: State, a: seq<Action>, b: seq<Action>)
    ensures Exec(s, a + b) == Exec(Exec(s, a), b)
    decreases |a|
  {
    if a == [] {
      assert a + b == b;
    } else {
      assert (a + b)[0] == a[0] && (a + b)[1..] == a[1..] + b;
      ExecAppend(Apply(s, a[0]), a[1..], b);
    }
  }

  // A run delivers only what `us` says was sent.
  ghost predicate Over(us: set<Event>, acts: seq<Action>) {
    forall a :: a in acts && a.Deliver? ==> AsSent(a.event) in us
  }

  // A webhook that is delivered again carries the same content. Restores are exempt: every
  // restore of the same transaction is a new reconciliation with a new time.
  ghost predicate Consistent(us: set<Event>) {
    && (forall e :: e in us ==> AsSent(e) == e)
    && (forall e, f :: e in us && f in us && !e.Restore? && KeyOf(e) == KeyOf(f) ==> e == f)
  }

  // ---------------------------------------------------------------- what the log says

  // A write that reached user u's row under key k.
  ghost predicate WroteKey(log: seq<Entry>, u: UserId, k: Key) {
    exists i :: 0 <= i < |log| && log[i].Wrote? && log[i].user == u && KeyOf(log[i].event) == k
  }

  ghost predicate WroteEvent(log: seq<Entry>, e: Event) {
    exists i :: 0 <= i < |log| && log[i].Wrote? && log[i].event == e
  }

  // How often an event was written under key k, whatever time its deliveries went by.
  function Writes(log: seq<Entry>, k: Key): nat {
    if log == [] then 0
    else Writes(log[..|log| - 1], k) + (if log[|log| - 1].Wrote? && KeyOf(log[|log| - 1].event) == k then 1 else 0)
  }

  datatype Ledger = Ledger(at: Option<Time>, id: Option<Key>, grant: Grant)

  // The subscription columns of user u as the log alone determines them.
  function Replay(log: seq<Entry>, u: UserId): Ledger {
    if log == [] then Ledger(None, None, NO_GRANT)
    else
      var rest := Replay(log[..|log| - 1], u);
      match log[|log| - 1]
      case Wrote(v, e, clock) => if v == u then Ledger(Some(e.at), Some(KeyOf(e)), GrantOf(e, clock)) else rest
      case Scrubbed(v) => if v == u then rest.(grant := NO_GRANT) else rest
  }

  // Writes to one profile never go back in time; Apple's and a restore's go strictly forward.
  ghost predicate Ordered(log: seq<Entry>) {
    forall i, j :: 0 <= i < j < |log| && log[i].Wrote? && log[j].Wrote? && log[i].user == log[j].user ==>
      log[i].event.at <= log[j].event.at &&
      (!log[j].event.Superwall? ==> log[i].event.at < log[j].event.at)
  }
}
