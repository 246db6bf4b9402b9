/** What every statement of every delivery keeps, and hence what holds on every run. */
module SubscriptionInvariant {
  import opened Options
  import opened Subscriptions

  // The profile of e's user has moved to a time that outranks e.
  ghost predicate Passed(s: State, e: Event) {
    var row := RowOf(s.profiles, e);
    row.Some? && row.value.at.Some? && Outranks(row.value.at.value, e)
  }

  // What an outcome tells its caller is true, and stays true.
  ghost predicate Vouched(s: State, e: Event, o: Outcome) {
    && (o == Updated || o == Duplicate ==> e.user.Some? && WroteKey(s.log, e.user.value, KeyOf(e)))
    && (o == OutOfOrder ==> Passed(s, e))
  }

  // What the source promises of each kind of event that is applied when the clock reads `clock`.
  ghost predicate Entitles(e: Event, clock: Time, isPro: bool, expires: Option<Time>) {
    match e
    case Superwall(_, _, _, _, ProOn, ends) => isPro && expires == ends
    case Superwall(_, _, _, _, ProOff, ends) =>
      !isPro && (ends.Some? ==> expires == ends) && (ends.None? ==> expires == Some(clock))
    case Superwall(_, _, _, _, ProStaysOn, ends) =>
      expires == ends && (isPro <==> (ends.Some? ==> ends.value > clock))
    case Superwall(_, _, _, _, OtherName, _) => true
    case Apple(_, _, _, off, ends) => (isPro <==> !off) && expires == ends
    case Restore(_, _, _, ends) => isPro && expires == ends
  }

  lemma GrantEntitles(e: Event, clock: Time)
    ensures Entitles(e, clock, GrantOf(e, clock).isPro, GrantOf(e, clock).expires)
  {
  }

  // A key belongs to one writer and one id.
  lemma KeyTells(e: Event, f: Event)
    ensures KeyOf(e) == KeyOf(f) <==>
              && e.id == f.id
              && (e.Superwall? <==> f.Superwall?) && (e.Apple? <==> f.Apple?) && (e.Restore? <==> f.Restore?)
  {
  }

  // The event names an account and is of a kind that touches profiles.
  predicate Applicable(e: Event) {
    e.user.Some? && !(e.Superwall? && e.kind.OtherName?)
  }

  ghost predicate Held(s: State, e: Event) {
    e.Restore? || KeyOf(e) in s.receipts
  }

  ghost predicate DeliverySound(s: State, e: Event, pc: Pc) {
    match pc
    case ReadReceipt => !e.Restore?
    case InsertReceipt => !e.Restore?
    case RereadReceipt => !e.Restore? && KeyOf(e) in s.receipts
    case ReadProfile => Held(s, e) && (e.user.Some? ==> Applicable(e))
    case CompareAndSet(seenAt, seenId, _) =>
      && Held(s, e) && Applicable(e)
      && seenId != Some(KeyOf(e))
      && (seenAt.Some? ==> !Outranks(seenAt.value, e))
    case RereadProfile => Held(s, e)
    case Mark(st, o) => !e.Restore? && KeyOf(e) in s.receipts && st == StatusFor(o) && Vouched(s, e, o)
    case ConfirmMark(o) =>
      !e.Restore? && KeyOf(e) in s.receipts && Terminal(s.receipts[KeyOf(e)].status) && Vouched(s, e, o)
    case MarkFailed => !e.Restore?
    case Done(o) =>
      && Vouched(s, e, o)
      && (!e.Restore? && o != Errored && o != Crashed ==>
            KeyOf(e) in s.receipts && Terminal(s.receipts[KeyOf(e)].status))
  }

  ghost predicate ReceiptSound(s: State, r: Receipt) {
    && (r.status == Processed ==> r.event.user.Some? && WroteKey(s.log, r.event.user.value, KeyOf(r.event)))
    && (r.status == Skipped(OutOfOrder) ==> Passed(s, r.setBy))
    && (r.status.Skipped? ==> r.status.reason != Updated && r.status.reason != Duplicate)
  }

  ghost predicate ReceiptKnown(us: set<Event>, k: Key, r: Receipt) {
    AsSent(r.event) in us && KeyOf(r.event) == k && !r.event.Restore? && AsSent(r.setBy) == AsSent(r.event)
  }

  // Everything the tables mention was delivered.
  ghost predicate Known(s: State, us: set<Event>) {
    && (forall d :: d in s.deliveries ==> AsSent(s.deliveries[d].event) in us)
    && (forall k :: k in s.receipts ==> ReceiptKnown(us, k, s.receipts[k]))
    && (forall i :: 0 <= i < |s.log| && s.log[i].Wrote? ==>
          && AsSent(s.log[i].event) in us
          && Applicable(s.log[i].event) && s.log[i].event.user == Some(s.log[i].user))
  }

  // A profile is never written again by the event it already carries.
  ghost predicate NoRepeat(log: seq<Entry>) {
    forall j :: 0 <= j < |log| && log[j].Wrote? ==> Replay(log[..j], log[j].user).id != Some(KeyOf(log[j].event))
  }

  ghost predicate FollowsLog(s: State) {
    forall u :: u in s.profiles ==>
      Ledger(s.profiles[u].at, s.profiles[u].id, s.profiles[u].grant) == Replay(s.log, u)
  }

  ghost predicate UserKnown(s: State, x: Entry) {
    x.user in s.profiles &&
    (x.Wrote? ==> s.profiles[x.user].at.Some? && x.event.at <= s.profiles[x.user].at.value)
  }

  ghost predicate Dominated(s: State) {
    forall i :: 0 <= i < |s.log| ==> UserKnown(s, s.log[i])
  }

  ghost predicate Inv(s: State, us: set<Event>) {
    && Known(s, us)
    && FollowsLog(s)
    && Dominated(s)
    && Ordered(s.log)
    && NoRepeat(s.log)
    && (forall d :: d in s.deliveries ==> DeliverySound(s, s.deliveries[d].event, s.deliveries[d].pc))
    && (forall k :: k in s.receipts ==> ReceiptSound(s, s.receipts[k]))
  }

  // What no step ever undoes: the log, the times, and every terminal receipt.
  ghost predicate Grows(s: State, t: State) {
    && s.log <= t.log
    && (forall u :: u in s.profiles ==>
          && u in t.profiles
          && (s.profiles[u].at.Some? ==> t.profiles[u].at.Some? && s.profiles[u].at.value <= t.profiles[u].at.value))
    && (forall k :: k in s.receipts ==>
          && k in t.receipts
          && t.receipts[k].event == s.receipts[k].event
          && (Terminal(s.receipts[k].status) ==> t.receipts[k] == s.receipts[k]))
  }

  lemma WroteKeyStays(log: seq<Entry>, more: seq<Entry>, u: UserId, k: Key)
    requires log <= more && WroteKey(log, u, k)
    ensures WroteKey(more, u, k)
  {
    var i :| 0 <= i < |log| && log[i].Wrote? && log[i].user == u && KeyOf(log[i].event) == k;
    assert more[i] == log[i];
  }

  lemma VouchedStays(s: State, t: State, e: Event, o: Outcome)
    requires Grows(s, t) && Vouched(s, e, o)
    ensures Vouched(t, e, o)
  {
    if o == Updated || o == Duplicate {
      WroteKeyStays(s.log, t.log, e.user.value, KeyOf(e));
    }
  }

  lemma DeliverySoundStays(s: State, t: State, e: Event, pc: Pc)
    requires Grows(s, t) && DeliverySound(s, e, pc)
    ensures DeliverySound(t, e, pc)
  {
    if pc.Mark? || pc.ConfirmMark? || pc.Done? {
      VouchedStays(s, t, e, pc.outcome);
    }
  }

  lemma ReceiptSoundStays(s: State, t: State, r: Receipt)
    requires Grows(s, t) && ReceiptSound(s, r)
    ensures ReceiptSound(t, r)
  {
    if r.status == Processed {
      WroteKeyStays(s.log, t.log, r.event.user.value, KeyOf(r.event));
    }
  }

  // Once the tables are known to have grown, only what changed needs to be looked at.
  lemma SoundStays(s: State, t: State, us: set<Event>)
    requires Inv(s, us) && Grows(s, t)
    ensures forall d :: d in s.deliveries ==> DeliverySound(t, s.deliveries[d].event, s.deliveries[d].pc)
    ensures forall k :: k in s.receipts ==> ReceiptSound(t, s.receipts[k])
  {
    forall d | d in s.deliveries
      ensures DeliverySound(t, s.deliveries[d].event, s.deliveries[d].pc)
    {
      DeliverySoundStays(s, t, s.deliveries[d].event, s.deliveries[d].pc);
    }
    forall k | k in s.receipts
      ensures ReceiptSound(t, s.receipts[k])
    {
      ReceiptSoundStays(s, t, s.receipts[k]);
    }
  }

  // ---------------------------------------------------------------- one lemma per kind of change

  lemma MovePc(s: State, us: set<Event>, d: nat, pc: Pc)
    requires Inv(s, us) && d in s.deliveries
    requires DeliverySound(s, s.deliveries[d].event, pc)
    ensures Inv(At(s, d, pc), us) && Grows(s, At(s, d, pc))
  {
    var t := At(s, d, pc);
    SoundStays(s, t, us);
    DeliverySoundStays(s, t, s.deliveries[d].event, pc);
  }

  lemma AddReceipt(s: State, us: set<Event>, e: Event)
    requires Inv(s, us) && AsSent(e) in us && !e.Restore? && KeyOf(e) !in s.receipts
    ensures var t := s.(receipts := s.receipts[KeyOf(e) := Receipt(e, Received, e)]);
            Inv(t, us) && Grows(s, t)
  {
    var t := s.(receipts := s.receipts[KeyOf(e) := Receipt(e, Received, e)]);
    SoundStays(s, t, us);
  }

  lemma ChangeStatus(s: State, us: set<Event>, e: Event, st: Status)
    requires Inv(s, us) && Consistent(us) && AsSent(e) in us && !e.Restore? && Open(s, KeyOf(e))
    requires ReceiptSound(s, Receipt(s.receipts[KeyOf(e)].event, st, e))
    ensures Inv(SetStatus(s, e, st), us) && Grows(s, SetStatus(s, e, st))
  {
    var t := SetStatus(s, e, st);
    assert AsSent(s.receipts[KeyOf(e)].event) == AsSent(e);
    SoundStays(s, t, us);
    ReceiptSoundStays(s, t, Receipt(s.receipts[KeyOf(e)].event, st, e));
  }

  lemma ReplayOther(log: seq<Entry>, x: Entry, u: UserId)
    ensures Replay(log + [x], u) ==
            (match x
             case Wrote(v, e, clock) =>
               if v == u then Ledger(Some(e.at), Some(KeyOf(e)), GrantOf(e, clock)) else Replay(log, u)
             case Scrubbed(v) => if v == u then Replay(log, u).(grant := NO_GRANT) else Replay(log, u))
  {
    assert (log + [x])[..|log + [x]| - 1] == log;
  }

  lemma NoRepeatExtends(log: seq<Entry>, x: Entry)
    requires NoRepeat(log)
    requires x.Wrote? ==> Replay(log, x.user).id != Some(KeyOf(x.event))
    ensures NoRepeat(log + [x])
  {
    forall j | 0 <= j < |log + [x]| && (log + [x])[j].Wrote?
      ensures Replay((log + [x])[..j], (log + [x])[j].user).id != Some(KeyOf((log + [x])[j].event))
    {
      assert (log + [x])[..j] == log[..j];
      assert log[..|log|] == log;
    }
  }

  // Event e may be written on its user's row.
  ghost predicate Writable(s: State, us: set<Event>, e: Event) {
    && AsSent(e) in us && Applicable(e) && e.user.value in s.profiles
    && s.profiles[e.user.value].id != Some(KeyOf(e))
    && (s.profiles[e.user.value].at.Some? ==> !Outranks(s.profiles[e.user.value].at.value, e))
  }

  lemma WriteOrdered(s: State, us: set<Event>, e: Event, clock: Time)
    requires Dominated(s) && Ordered(s.log) && Writable(s, us, e)
    ensures Ordered(Write(s, e, clock).log)
  {
    forall i | 0 <= i < |s.log| && s.log[i].Wrote? && s.log[i].user == e.user.value
      ensures s.log[i].event.at <= e.at && (!e.Superwall? ==> s.log[i].event.at < e.at)
    {
      assert UserKnown(s, s.log[i]);
    }
  }

  lemma WriteDominated(s: State, us: set<Event>, e: Event, clock: Time)
    requires Dominated(s) && Writable(s, us, e)
    ensures Dominated(Write(s, e, clock))
  {
    var t := Write(s, e, clock);
    forall i | 0 <= i < |t.log|
      ensures UserKnown(t, t.log[i])
    {
      assert i < |s.log| ==> t.log[i] == s.log[i] && UserKnown(s, s.log[i]);
    }
  }

  lemma WriteFollows(s: State, us: set<Event>, e: Event, clock: Time)
    requires FollowsLog(s) && NoRepeat(s.log) && Writable(s, us, e)
    ensures FollowsLog(Write(s, e, clock)) && NoRepeat(Write(s, e, clock).log)
  {
    var t := Write(s, e, clock);
    var x := Wrote(e.user.value, e, clock);
    assert s.profiles[e.user.value].id == Replay(s.log, e.user.value).id;
    NoRepeatExtends(s.log, x);
    forall v | v in t.profiles
      ensures Ledger(t.profiles[v].at, t.profiles[v].id, t.profiles[v].grant) == Replay(t.log, v)
    {
      ReplayOther(s.log, x, v);
    }
  }

  // The compare-and-set succeeds: the only statement that moves a profile's time.
  lemma ApplyWrite(s: State, us: set<Event>, e: Event, clock: Time)
    requires Inv(s, us) && Writable(s, us, e)
    ensures Inv(Write(s, e, clock), us) && Grows(s, Write(s, e, clock))
    ensures WroteKey(Write(s, e, clock).log, e.user.value, KeyOf(e))
  {
    var t := Write(s, e, clock);
    assert t.log[|s.log|] == Wrote(e.user.value, e, clock);
    SoundStays(s, t, us);
    WriteOrdered(s, us, e, clock);
    WriteDominated(s, us, e, clock);
    WriteFollows(s, us, e, clock);
    assert Known(t, us);
  }

  lemma ScrubProfile(s: State, us: set<Event>, u: UserId)
    requires Inv(s, us) && u in s.profiles
    ensures Inv(Apply(s, CloseAccount(u)), us) && Grows(s, Apply(s, CloseAccount(u)))
  {
    var t := Apply(s, CloseAccount(u));
    var x := Scrubbed(u);
    assert Grows(s, t);
    SoundStays(s, t, us);
    NoRepeatExtends(s.log, x);
    assert forall i :: 0 <= i < |t.log| && t.log[i].Wrote? ==> i < |s.log| && t.log[i] == s.log[i];
    assert Known(t, us);
    assert Ordered(t.log);
    assert FollowsLog(t) by {
      forall v | v in t.profiles
        ensures Ledger(t.profiles[v].at, t.profiles[v].id, t.profiles[v].grant) == Replay(t.log, v)
      {
        ReplayOther(s.log, x, v);
      }
    }
    assert Dominated(t) by {
      forall i | 0 <= i < |t.log|
        ensures UserKnown(t, t.log[i])
      {
        assert i < |s.log| ==> t.log[i] == s.log[i] && UserKnown(s, s.log[i]);
      }
    }
  }

  lemma ReplayUnknown(s: State, u: UserId, log: seq<Entry>)
    requires log <= s.log && Dominated(s) && u !in s.profiles
    ensures Replay(log, u) == Ledger(None, None, NO_GRANT)
    decreases |log|
  {
    if log != [] {
      assert log[|log| - 1] == s.log[|log| - 1] && UserKnown(s, s.log[|log| - 1]);
      ReplayUnknown(s, u, log[..|log| - 1]);
    }
  }

  lemma OpenProfile(s: State, us: set<Event>, u: UserId)
    requires Inv(s, us)
    ensures Inv(Apply(s, SignIn(u)), us) && Grows(s, Apply(s, SignIn(u)))
  {
    var t := Apply(s, SignIn(u));
    SoundStays(s, t, us);
    if u !in s.profiles {
      ReplayUnknown(s, u, s.log);
    }
    forall i | 0 <= i < |t.log|
      ensures UserKnown(t, t.log[i])
    {
      assert UserKnown(s, s.log[i]);
    }
  }

  lemma AddDelivery(s: State, us: set<Event>, d: nat, e: Event)
    requires Inv(s, us) && AsSent(e) in us && d !in s.deliveries
    ensures Inv(Apply(s, Deliver(d, e)), us) && Grows(s, Apply(s, Deliver(d, e)))
  {
    SoundStays(s, Apply(s, Deliver(d, e)), us);
  }

  // ---------------------------------------------------------------- one statement of one delivery

  lemma {:induction false} IdWasWritten(log: seq<Entry>, u: UserId, k: Key)
    requires Replay(log, u).id == Some(k)
    ensures WroteKey(log, u, k)
    decreases |log|
  {
    var x := log[|log| - 1];
    if x.Wrote? && x.user == u {
    } else {
      IdWasWritten(log[..|log| - 1], u, k);
      WroteKeyStays(log[..|log| - 1], log, u, k);
    }
  }

  lemma VerdictVouched(s: State, us: set<Event>, e: Event)
    requires Inv(s, us)
    ensures var v := Verdict(RowOf(s.profiles, e), e); v.Some? ==> Vouched(s, e, v.value)
  {
    var row := RowOf(s.profiles, e);
    if Verdict(row, e) == Some(Duplicate) {
      IdWasWritten(s.log, e.user.value, KeyOf(e));
    }
  }

  lemma AdmitSound(s: State, e: Event, now: Time)
    requires !e.Restore? && KeyOf(e) in s.receipts
    ensures DeliverySound(s, e, Admit(e, now))
  {
  }

  lemma ReceiptStep(s: State, us: set<Event>, d: nat, now: Time)
    requires Inv(s, us) && d in s.deliveries
    requires s.deliveries[d].pc.ReadReceipt? || s.deliveries[d].pc.InsertReceipt? || s.deliveries[d].pc.RereadReceipt?
    ensures Inv(StepDelivery(s, d, now), us) && Grows(s, StepDelivery(s, d, now))
  {
    var e := s.deliveries[d].event;
    var k := KeyOf(e);
    assert DeliverySound(s, e, s.deliveries[d].pc);
    if s.deliveries[d].pc.InsertReceipt? && k !in s.receipts {
      AddReceipt(s, us, e);
      var t := s.(receipts := s.receipts[k := Receipt(e, Received, e)]);
      AdmitSound(t, e, now);
      MovePc(t, us, d, Admit(e, now));
    } else if s.deliveries[d].pc.InsertReceipt? {
      MovePc(s, us, d, RereadReceipt);
    } else if k !in s.receipts {
      MovePc(s, us, d, InsertReceipt);
    } else if Terminal(s.receipts[k].status) {
      MovePc(s, us, d, Done(Replayed));
    } else {
      AdmitSound(s, e, now);
      MovePc(s, us, d, Admit(e, now));
    }
  }

  lemma ReadStep(s: State, us: set<Event>, d: nat, now: Time)
    requires Inv(s, us) && d in s.deliveries
    requires s.deliveries[d].pc.ReadProfile? || s.deliveries[d].pc.RereadProfile?
    ensures Inv(StepDelivery(s, d, now), us) && Grows(s, StepDelivery(s, d, now))
  {
    var e := s.deliveries[d].event;
    var row := RowOf(s.profiles, e);
    assert DeliverySound(s, e, s.deliveries[d].pc);
    var v := Verdict(row, e);
    if v.Some? {
      VerdictVouched(s, us, e);
      MovePc(s, us, d, Conclude(e, v.value));
    } else if s.deliveries[d].pc.ReadProfile? {
      MovePc(s, us, d, CompareAndSet(row.value.at, row.value.id, now));
    } else {
      MovePc(s, us, d, Raise(e));
    }
  }

  lemma WriteStep(s: State, us: set<Event>, d: nat, now: Time)
    requires Inv(s, us) && d in s.deliveries && s.deliveries[d].pc.CompareAndSet?
    ensures Inv(StepDelivery(s, d, now), us) && Grows(s, StepDelivery(s, d, now))
  {
    var e := s.deliveries[d].event;
    var pc := s.deliveries[d].pc;
    assert DeliverySound(s, e, pc);
    if Matches(RowOf(s.profiles, e), pc.seenAt, pc.seenId) {
      ApplyWrite(s, us, e, pc.clock);
      MovePc(Write(s, e, pc.clock), us, d, Conclude(e, Updated));
    } else {
      MovePc(s, us, d, RereadProfile);
    }
  }

  lemma SettledSound(s: State, t: State, e: Event, st: Status, o: Outcome)
    requires Grows(s, t) && Vouched(s, e, o) && KeyOf(e) in t.receipts && t.receipts[KeyOf(e)].status == st
    requires st == StatusFor(o) || (st == Failed && o == Errored)
    ensures DeliverySound(t, e, Done(o))
  {
    VouchedStays(s, t, e, o);
  }

  lemma SettleReceipt(s: State, us: set<Event>, d: nat, st: Status, o: Outcome)
    requires Inv(s, us) && Consistent(us) && d in s.deliveries
    requires var e := s.deliveries[d].event; !e.Restore? && Open(s, KeyOf(e)) && Vouched(s, e, o)
    requires st == StatusFor(o) || (st == Failed && o == Errored)
    ensures var t := At(SetStatus(s, s.deliveries[d].event, st), d, Done(o)); Inv(t, us) && Grows(s, t)
  {
    var e := s.deliveries[d].event;
    var t := SetStatus(s, e, st);
    assert AsSent(s.receipts[KeyOf(e)].event) == AsSent(e) by {
      assert ReceiptKnown(us, KeyOf(e), s.receipts[KeyOf(e)]);
      assert KeyOf(AsSent(s.receipts[KeyOf(e)].event)) == KeyOf(AsSent(e));
    }
    SettledIsSound(s, e, st, o);
    ChangeStatus(s, us, e, st);
    SettledSound(s, t, e, st, o);
    MovePc(t, us, d, Done(o));
    GrowsOn(s, t, At(t, d, Done(o)));
  }

  lemma SettledIsSound(s: State, e: Event, st: Status, o: Outcome)
    requires KeyOf(e) in s.receipts && AsSent(s.receipts[KeyOf(e)].event) == AsSent(e) && Vouched(s, e, o)
    requires st == StatusFor(o) || (st == Failed && o == Errored)
    ensures ReceiptSound(s, Receipt(s.receipts[KeyOf(e)].event, st, e))
  {
  }

  lemma GrowsOn(s: State, t: State, r: State)
    requires Grows(s, t) && Grows(t, r)
    ensures Grows(s, r)
  {
  }

  lemma MarkStep(s: State, us: set<Event>, d: nat, now: Time)
    requires Inv(s, us) && Consistent(us) && d in s.deliveries
    requires s.deliveries[d].pc.Mark? || s.deliveries[d].pc.ConfirmMark? || s.deliveries[d].pc.MarkFailed?
    ensures Inv(StepDelivery(s, d, now), us) && Grows(s, StepDelivery(s, d, now))
  {
    var e := s.deliveries[d].event;
    var pc := s.deliveries[d].pc;
    assert DeliverySound(s, e, pc);
    if Open(s, KeyOf(e)) && !pc.ConfirmMark? {
      SettleReceipt(s, us, d, if pc.Mark? then pc.status else Failed, if pc.MarkFailed? then Errored else pc.outcome);
    } else if pc.Mark? {
      MovePc(s, us, d, ConfirmMark(pc.outcome));
    } else {
      MovePc(s, us, d, Done(if pc.MarkFailed? then Errored else pc.outcome));
    }
  }

  lemma StepKeepsInv(s: State, us: set<Event>, d: nat, now: Time)
    requires Inv(s, us) && Consistent(us) && d in s.deliveries
    ensures Inv(StepDelivery(s, d, now), us) && Grows(s, StepDelivery(s, d, now))
  {
    var pc := s.deliveries[d].pc;
    if pc.ReadReceipt? || pc.InsertReceipt? || pc.RereadReceipt? {
      ReceiptStep(s, us, d, now);
    } else if pc.ReadProfile? || pc.RereadProfile? {
      ReadStep(s, us, d, now);
    } else if pc.CompareAndSet? {
      WriteStep(s, us, d, now);
    } else if !pc.Done? {
      MarkStep(s, us, d, now);
    }
  }

  lemma ApplyKeepsInv(s: State, us: set<Event>, a: Action)
    requires Inv(s, us) && Consistent(us) && (a.Deliver? ==> AsSent(a.event) in us)
    ensures Inv(Apply(s, a), us) && Grows(s, Apply(s, a))
  {
    match a
    case SignIn(u) => OpenProfile(s, us, u);
    case CloseAccount(u) => if u in s.profiles { ScrubProfile(s, us, u); }
    case Deliver(d, e) => if d !in s.deliveries { AddDelivery(s, us, d, e); }
    case Step(d, now) => if d in s.deliveries { StepKeepsInv(s, us, d, now); }
    case Fault(d) =>
      if d in s.deliveries && !s.deliveries[d].pc.Done? {
        assert DeliverySound(s, s.deliveries[d].event, s.deliveries[d].pc);
        MovePc(s, us, d, if s.deliveries[d].pc.MarkFailed? then Done(Errored) else Raise(s.deliveries[d].event));
      }
    case Crash(d) =>
      if d in s.deliveries && !s.deliveries[d].pc.Done? {
        MovePc(s, us, d, Done(Crashed));
      }
  }

  // The invariant on every run, under any interleaving, duplication, exception and crash.
  lemma {:induction false} RunKeepsInv(s: State, us: set<Event>, acts: seq<Action>)
    requires Inv(s, us) && Consistent(us) && Over(us, acts)
    ensures Inv(Exec(s, acts), us) && Grows(s, Exec(s, acts))
    decreases |acts|
  {
    if acts != [] {
      assert acts[0] in acts;
      ApplyKeepsInv(s, us, acts[0]);
      RunKeepsInv(Apply(s, acts[0]), us, acts[1..]);
    }
  }

  lemma ReachableInv(us: set<Event>, acts: seq<Action>)
    requires Consistent(us) && Over(us, acts)
    ensures Inv(Exec(INITIAL, acts), us)
  {
    assert Inv(INITIAL, us);
    RunKeepsInv(INITIAL, us, acts);
  }
}
