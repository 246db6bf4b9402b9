/** What the reconciliation promises, over every run. */
module SubscriptionTheorems {
  import opened Options
  import opened Subscriptions
  import opened SubscriptionInvariant

  // ---------------------------------------------------------------- monotonicity

  // Along every run the log only grows, no profile's subscription time ever decreases, and a
  // terminal receipt never changes.
  lemma NothingGoesBack(us: set<Event>, acts: seq<Action>, more: seq<Action>)
    requires Consistent(us) && Over(us, acts) && Over(us, more)
    ensures Grows(Exec(INITIAL, acts), Exec(INITIAL, acts + more))
  {
    ReachableInv(us, acts);
    ExecAppend(INITIAL, acts, more);
    RunKeepsInv(Exec(INITIAL, acts), us, more);
  }

  // e was written, at whatever time its delivery went by.
  ghost predicate WroteMessage(log: seq<Entry>, e: Event) {
    exists i :: 0 <= i < |log| && log[i].Wrote? && AsSent(log[i].event) == e
  }

  // A terminal receipt tells the truth: processed only if the event was written, out of order
  // only if the profile has moved past the time its delivery went by; and an outcome reported
  // to a caller does too.
  lemma ReceiptsTellTheTruth(us: set<Event>, acts: seq<Action>, e: Event)
    requires Consistent(us) && Over(us, acts) && AsSent(e) in us && !e.Restore?
    ensures var s := Exec(INITIAL, acts);
            KeyOf(e) in s.receipts ==>
              var r := s.receipts[KeyOf(e)];
              && AsSent(r.event) == AsSent(r.setBy) == AsSent(e)
              && (r.status == Processed ==> WroteMessage(s.log, AsSent(e)))
              && (r.status == Skipped(OutOfOrder) ==> Passed(s, r.setBy))
    ensures var s := Exec(INITIAL, acts);
            forall d :: d in s.deliveries && s.deliveries[d].event == e && s.deliveries[d].pc.Done? ==>
              Vouched(s, e, s.deliveries[d].pc.outcome)
  {
    ReachableInv(us, acts);
    var s := Exec(INITIAL, acts);
    if KeyOf(e) in s.receipts {
      var r := s.receipts[KeyOf(e)];
      assert ReceiptSound(s, r) && ReceiptKnown(us, KeyOf(e), r);
      assert KeyOf(AsSent(r.event)) == KeyOf(AsSent(e));
      if r.status == Processed {
        var i :| 0 <= i < |s.log| && s.log[i].Wrote? && s.log[i].user == r.event.user.value
            && KeyOf(s.log[i].event) == KeyOf(e);
        assert KeyOf(AsSent(s.log[i].event)) == KeyOf(AsSent(e));
      }
    }
    forall d | d in s.deliveries && s.deliveries[d].event == e && s.deliveries[d].pc.Done?
      ensures Vouched(s, e, s.deliveries[d].pc.outcome)
    {
      assert DeliverySound(s, s.deliveries[d].event, s.deliveries[d].pc);
    }
  }

  // The mark that finds its receipt already terminal always confirms it: the source's error
  // "status was not persisted" is never raised.
  lemma MarkIsAlwaysConfirmed(us: set<Event>, acts: seq<Action>, d: nat, now: Time)
    requires Consistent(us) && Over(us, acts)
    requires var s := Exec(INITIAL, acts); d in s.deliveries && s.deliveries[d].pc.ConfirmMark?
    ensures var s := Exec(INITIAL, acts);
            Apply(s, Step(d, now)) == At(s, d, Done(s.deliveries[d].pc.outcome))
  {
    ReachableInv(us, acts);
    var s := Exec(INITIAL, acts);
    assert DeliverySound(s, s.deliveries[d].event, s.deliveries[d].pc);
  }

  // ---------------------------------------------------------------- the newest event wins

  // A delivery that was told its event is out of order.
  predicate ToldLate(pc: Pc) {
    (pc.Mark? || pc.ConfirmMark? || pc.Done?) && pc.outcome == OutOfOrder
  }

  // The events that reached the ordering check and were settled by it, with the times they
  // went by.
  ghost predicate Reached(s: State, e: Event) {
    || WroteEvent(s.log, e)
    || (KeyOf(e) in s.receipts && s.receipts[KeyOf(e)].status == Skipped(OutOfOrder) && s.receipts[KeyOf(e)].setBy == e)
    || (exists d :: d in s.deliveries && s.deliveries[d].event == e && ToldLate(s.deliveries[d].pc))
  }

  lemma LateIsPassed(s: State, us: set<Event>, e: Event)
    requires Inv(s, us) && Reached(s, e)
    ensures WroteEvent(s.log, e) || Passed(s, e)
    ensures AsSent(e) in us
  {
    if KeyOf(e) in s.receipts && s.receipts[KeyOf(e)].status == Skipped(OutOfOrder) && s.receipts[KeyOf(e)].setBy == e {
      assert ReceiptSound(s, s.receipts[KeyOf(e)]) && ReceiptKnown(us, KeyOf(e), s.receipts[KeyOf(e)]);
    } else if !WroteEvent(s.log, e) {
      var d :| d in s.deliveries && s.deliveries[d].event == e && ToldLate(s.deliveries[d].pc);
      assert DeliverySound(s, s.deliveries[d].event, s.deliveries[d].pc);
    }
  }

  predicate ScrubbedAfter(log: seq<Entry>, u: UserId, j: nat) {
    exists i :: j < i < |log| && log[i] == Scrubbed(u)
  }

  // The ledger is the last write, minus its grant if the account was closed since.
  lemma {:induction false} LastWrite(log: seq<Entry>, u: UserId) returns (j: nat)
    requires Replay(log, u).at.Some?
    ensures j < |log| && log[j].Wrote? && log[j].user == u
    ensures Replay(log, u) == Ledger(Some(log[j].event.at), Some(KeyOf(log[j].event)),
                                     if ScrubbedAfter(log, u, j) then NO_GRANT else GrantOf(log[j].event, log[j].clock))
    ensures forall i :: j < i < |log| && log[i].Wrote? ==> log[i].user != u
    decreases |log|
  {
    var n := |log| - 1;
    var x := log[n];
    if x.Wrote? && x.user == u {
      j := n;
    } else {
      var rest := log[..n];
      j := LastWrite(rest, u);
      assert log[j] == rest[j];
      if x == Scrubbed(u) {
        assert ScrubbedAfter(log, u, j);
      } else if ScrubbedAfter(rest, u, j) {
        var i :| j < i < |rest| && rest[i] == Scrubbed(u);
        assert log[i] == Scrubbed(u);
      } else {
        assert forall i :: j < i < n ==> log[i] == rest[i];
      }
    }
  }

  lemma ReachedIsDominated(s: State, us: set<Event>, e: Event)
    requires Inv(s, us) && e.user.Some? && Reached(s, e)
    ensures e.user.value in s.profiles
    ensures s.profiles[e.user.value].at.Some? && e.at <= s.profiles[e.user.value].at.value
  {
    LateIsPassed(s, us, e);
    if WroteEvent(s.log, e) {
      var i :| 0 <= i < |s.log| && s.log[i].Wrote? && s.log[i].event == e;
      assert UserKnown(s, s.log[i]);
    }
  }

  lemma NoTimeNoId(log: seq<Entry>, u: UserId)
    requires Replay(log, u).at.None?
    ensures Replay(log, u).id.None?
  {
    if Replay(log, u).id.Some? {
      IdWasWritten(log, u, Replay(log, u).id.value);
      var i :| 0 <= i < |log| && log[i].Wrote? && log[i].user == u;
      ReplayAfterWrite(log, u, i);
    }
  }

  // In every reachable state a profile's event id, time and entitlement are those of one
  // event, no older than any event of that user that reached the ordering check, by the times
  // their deliveries went by. A profile without an event was reached by none.
  lemma NewestEventWins(us: set<Event>, acts: seq<Action>, u: UserId) returns (w: Entry)
    requires Consistent(us) && Over(us, acts) && u in Exec(INITIAL, acts).profiles
    ensures var s := Exec(INITIAL, acts);
            var p := s.profiles[u];
            forall e: Event :: e.user == Some(u) && Reached(s, e) ==> p.at.Some? && e.at <= p.at.value
    ensures var s := Exec(INITIAL, acts);
            var p := s.profiles[u];
            p.at.Some? ==>
              && w.Wrote? && AsSent(w.event) in us && w.event.user == Some(u) && Reached(s, w.event)
              && p.at == Some(w.event.at) && p.id == Some(KeyOf(w.event))
              && (p.grant == GrantOf(w.event, w.clock) || (Scrubbed(u) in s.log && p.grant == NO_GRANT))
              && (Entitles(w.event, w.clock, p.grant.isPro, p.grant.expires)
                  || (Scrubbed(u) in s.log && !p.grant.isPro && p.grant.expires.None?))
    ensures var p := Exec(INITIAL, acts).profiles[u]; p.at.None? ==> p.id.None?
  {
    ReachableInv(us, acts);
    var s := Exec(INITIAL, acts);
    var p := s.profiles[u];
    forall e: Event | e.user == Some(u) && Reached(s, e)
      ensures p.at.Some? && e.at <= p.at.value
    {
      ReachedIsDominated(s, us, e);
    }
    w := Scrubbed(u);
    if p.at.None? {
      NoTimeNoId(s.log, u);
    } else {
      var j := LastWrite(s.log, u);
      w := s.log[j];
      GrantEntitles(w.event, w.clock);
    }
  }

  // ---------------------------------------------------------------- closed accounts, stale events

  lemma {:induction false} ClosedIsScrubbed(s: State, acts: seq<Action>, u: UserId)
    requires forall v :: v in s.profiles && s.profiles[v].deleted ==> s.profiles[v].grant == NO_GRANT
    ensures var t := Exec(s, acts);
            u in t.profiles && t.profiles[u].deleted ==> t.profiles[u].grant == NO_GRANT
    decreases |acts|
  {
    if acts != [] {
      ClosedIsScrubbed(Apply(s, acts[0]), acts[1..], u);
    }
  }

  // A closed account has no entitlement, and nothing but a sign-in changes anything about it:
  // no delivery of any event, wherever it stands.
  lemma ClosedAccountIsLeftAlone(acts: seq<Action>, u: UserId, a: Action)
    requires var s := Exec(INITIAL, acts); u in s.profiles && s.profiles[u].deleted && a != SignIn(u)
    ensures var s := Exec(INITIAL, acts);
            && !s.profiles[u].grant.isPro && s.profiles[u].grant.expires.None?
            && u in Apply(s, a).profiles && Apply(s, a).profiles[u] == s.profiles[u]
  {
    ClosedIsScrubbed(INITIAL, acts, u);
  }

  // A sign-in opens the profile and touches nothing else of it, a new one having no event and no
  // entitlement; a closure takes the entitlement and leaves the event.
  lemma SignInAndClosure(s: State, u: UserId)
    ensures var t := Apply(s, SignIn(u));
            && u in t.profiles && !t.profiles[u].deleted && t.profiles == s.profiles[u := t.profiles[u]]
            && (u in s.profiles ==> t.profiles[u] == s.profiles[u].(deleted := false))
            && (u !in s.profiles ==> t.profiles[u] == Profile(false, None, None, Grant(false, None)))
    ensures var t := Apply(s, CloseAccount(u));
            && t.profiles.Keys == s.profiles.Keys
            && (u in s.profiles ==>
                  t.profiles == s.profiles[u := Profile(true, s.profiles[u].at, s.profiles[u].id, Grant(false, None))])
  {
  }

  // A delivery whose receipt is open goes on to the profile exactly if its event names an
  // account and, for a webhook, is of a handled kind, no older than seven days and no more than
  // five minutes ahead of the clock; otherwise it says which of these failed first.
  lemma GoesOnExactly(s: State, d: nat, now: Time)
    requires d in s.deliveries && s.deliveries[d].pc.InsertReceipt? && KeyOf(s.deliveries[d].event) !in s.receipts
    requires !s.deliveries[d].event.Restore?
    ensures var e := s.deliveries[d].event;
            var pc := Apply(s, Step(d, now)).deliveries[d].pc;
            var timely := e.Superwall? ==> now - 604_800_000_000 <= e.at <= now + 300_000_000;
            && (pc == ReadProfile <==> timely && Applicable(e))
            && (!timely ==> pc == Mark(Skipped(StaleEvent), StaleEvent))
            && (timely && e.user.None? ==> pc == Mark(Skipped(NoUser), NoUser))
            && (timely && e.user.Some? && !Applicable(e) ==> pc == Mark(Skipped(Unhandled), Unhandled))
  {
  }

  // Where a delivery goes that reads the profile: it gives up on a missing or closed one, takes
  // an event the profile already carries for a duplicate and one the profile has passed for out
  // of order, a tie being out of order for all but Superwall; else it goes on to write exactly
  // the row it read.
  lemma OrderingCheckExactly(s: State, d: nat, now: Time)
    requires d in s.deliveries && s.deliveries[d].pc.ReadProfile? && s.deliveries[d].event.user.Some?
    ensures var e := s.deliveries[d].event;
            var u := e.user.value;
            var pc := Apply(s, Step(d, now)).deliveries[d].pc;
            var there := u in s.profiles && !s.profiles[u].deleted;
            var mine := there && s.profiles[u].id == Some(KeyOf(e));
            var late := there && s.profiles[u].at.Some? &&
                        (s.profiles[u].at.value > e.at || (s.profiles[u].at.value == e.at && !e.Superwall?));
            && (pc.CompareAndSet? <==> there && !mine && !late)
            && (pc.CompareAndSet? ==> pc == CompareAndSet(s.profiles[u].at, s.profiles[u].id, now))
            && (!there ==> pc == if e.Restore? then Done(ProfileUnavailable)
                                 else Mark(Skipped(ProfileUnavailable), ProfileUnavailable))
            && (mine ==> pc == if e.Restore? then Done(Duplicate) else Mark(Processed, Duplicate))
            && (!mine && late ==> pc == if e.Restore? then Done(OutOfOrder) else Mark(Skipped(OutOfOrder), OutOfOrder))
  {
  }

  // ---------------------------------------------------------------- at most once

  lemma {:induction false} TwoWrites(log: seq<Entry>, k: Key) returns (i: nat, j: nat)
    requires Writes(log, k) >= 2
    ensures i < j < |log| && log[i].Wrote? && KeyOf(log[i].event) == k && log[j].Wrote? && KeyOf(log[j].event) == k
    decreases |log|
  {
    var n := |log| - 1;
    if log[n].Wrote? && KeyOf(log[n].event) == k {
      j := n;
      i := OneWrite(log[..n], k);
    } else {
      i, j := TwoWrites(log[..n], k);
    }
  }

  lemma {:induction false} OneWrite(log: seq<Entry>, k: Key) returns (i: nat)
    requires Writes(log, k) >= 1
    ensures i < |log| && log[i].Wrote? && KeyOf(log[i].event) == k
    decreases |log|
  {
    var n := |log| - 1;
    if log[n].Wrote? && KeyOf(log[n].event) == k {
      i := n;
    } else {
      i := OneWrite(log[..n], k);
    }
  }

  lemma {:induction false} ReplayAfterWrite(log: seq<Entry>, u: UserId, i: nat)
    requires i < |log| && log[i].Wrote? && log[i].user == u
    ensures Replay(log, u).at.Some?
    decreases |log|
  {
    if i < |log| - 1 {
      ReplayAfterWrite(log[..|log| - 1], u, i);
    }
  }

  predicate Handled(e: Event) {
    e.Superwall? && Applicable(e)
  }

  // Between deliveries of e, a delivery of f can be written and leave room for e once more:
  // e's time is the clock's, or the two are Superwall events with one time.
  predicate Clash(e: Event, f: Event) {
    && KeyOf(e) != KeyOf(f) && Handled(e) && Applicable(f) && e.user == f.user
    && (!e.dated || (f.Superwall? && f.dated && e.at == f.at))
  }

  // No two handled Superwall events of one user carry the same time, and no handled webhook
  // without a timestamp shares its user with another event that touches profiles.
  ghost predicate NoClash(us: set<Event>) {
    forall e, f :: e in us && f in us ==> !Clash(e, f)
  }

  // Two writes under one key leave behind a pair that clashes, one of the two with that key.
  lemma RewriteNeedsClash(s: State, us: set<Event>, k: Key) returns (e: Event, f: Event)
    requires Inv(s, us) && Consistent(us) && !k.RestoreKey? && Writes(s.log, k) >= 2
    ensures k.SuperwallKey? && e in us && f in us && Clash(e, f) && (KeyOf(e) == k || KeyOf(f) == k)
  {
    var i, j := TwoWrites(s.log, k);
    var first, second := s.log[i].event, s.log[j].event;
    assert AsSent(first) in us && AsSent(second) in us && KeyOf(AsSent(first)) == k == KeyOf(AsSent(second));
    var u := s.log[j].user;
    var before := s.log[..j];
    assert before[i] == s.log[i];
    ReplayAfterWrite(before, u, i);
    var m := LastWrite(before, u);
    assert before[m] == s.log[m];
    var between := s.log[m].event;
    assert KeyOf(between) != k;
    assert i < m;
    e, f := AsSent(first), AsSent(between);
    if Dated(first) && between.Superwall? && !between.dated {
      e, f := f, e;
    }
  }

  ghost predicate AtMostOnce(us: set<Event>) {
    forall acts, k: Key :: Over(us, acts) && !k.RestoreKey? ==> Writes(Exec(INITIAL, acts).log, k) <= 1
  }

  // Apple notifications are applied at most once whatever the times are.
  lemma AppleAtMostOnce(us: set<Event>, acts: seq<Action>, id: string)
    requires Consistent(us) && Over(us, acts)
    ensures Writes(Exec(INITIAL, acts).log, AppleKey(id)) <= 1
  {
    ReachableInv(us, acts);
    if Writes(Exec(INITIAL, acts).log, AppleKey(id)) >= 2 {
      var e, f := RewriteNeedsClash(Exec(INITIAL, acts), us, AppleKey(id));
    }
  }

  // A restore at one time is written at most once, by however many deliveries.
  lemma RestoreAtMostOnce(us: set<Event>, acts: seq<Action>, i: nat, j: nat)
    requires Consistent(us) && Over(us, acts)
    requires var log := Exec(INITIAL, acts).log;
             && i < j < |log| && log[i].Wrote? && log[j].Wrote? && log[i].event.Restore?
             && KeyOf(log[i].event) == KeyOf(log[j].event)
             && log[i].user == log[j].user
    ensures var log := Exec(INITIAL, acts).log; log[i].event.at < log[j].event.at
  {
    ReachableInv(us, acts);
  }

  lemma ExecCons(s: State, a: Action, rest: seq<Action>)
    ensures Exec(s, [a] + rest) == Exec(Apply(s, a), rest)
  {
    assert ([a] + rest)[1..] == rest;
  }

  // ---------------------------------------------------------------- runs written out

  // What a state looks like after a delivery of e wrote the profile and stopped for ever.
  ghost predicate JustWrote(s: State, t: State, d: nat, e: Event)
    requires e.user.Some?
  {
    && t.log == s.log + [Wrote(e.user.value, e, e.at)]
    && t.profiles == s.profiles[e.user.value := Profile(false, Some(e.at), Some(KeyOf(e)), GrantOf(e, e.at))]
    && (forall k :: k in t.receipts <==> k in s.receipts || (k == KeyOf(e) && !e.Restore?))
    && (forall k :: k in t.receipts ==>
          t.receipts[k].status == if k in s.receipts then s.receipts[k].status else Received)
    && t.deliveries.Keys == s.deliveries.Keys + {d}
  }

  // A delivery of e can still get as far as the profile.
  ghost predicate CanArrive(s: State, d: nat, e: Event) {
    && Applicable(e) && d !in s.deliveries
    && (e.Restore? || KeyOf(e) !in s.receipts || Open(s, KeyOf(e)))
  }

  // The statements that take a new delivery of e to its read of the profile.
  lemma ArriveAtProfile(s: State, d: nat, e: Event) returns (acts: seq<Action>)
    requires CanArrive(s, d, e)
    ensures forall a :: a in acts && a.Deliver? ==> a.event == e
    ensures var t := Exec(s, acts);
            && t.profiles == s.profiles && t.log == s.log
            && d in t.deliveries && t.deliveries[d] == Delivery(e, ReadProfile)
            && (forall k :: k in t.receipts <==> k in s.receipts || (k == KeyOf(e) && !e.Restore?))
            && (forall k :: k in t.receipts ==>
                  t.receipts[k].status == if k in s.receipts then s.receipts[k].status else Received)
            && t.deliveries.Keys == s.deliveries.Keys + {d}
  {
    var step := Step(d, e.at);
    var s1 := Apply(s, Deliver(d, e));
    if e.Restore? {
      acts := [Deliver(d, e)] + [];
      ExecCons(s, Deliver(d, e), []);
    } else if KeyOf(e) in s.receipts {
      acts := [Deliver(d, e)] + ([step] + []);
      ExecCons(s, Deliver(d, e), [step] + []);
      ExecCons(s1, step, []);
      assert Apply(s1, step) == At(s1, d, ReadProfile);
    } else {
      acts := [Deliver(d, e)] + ([step] + ([step] + []));
      ExecCons(s, Deliver(d, e), [step] + ([step] + []));
      ExecCons(s1, step, [step] + []);
      var s2 := Apply(s1, step);
      assert s2 == At(s1, d, InsertReceipt);
      ExecCons(s2, step, []);
    }
  }

  // A delivery of e that writes the profile and then stops for ever before its mark.
  lemma WriteWithoutMark(s: State, d: nat, e: Event) returns (acts: seq<Action>)
    requires CanArrive(s, d, e)
    requires RowOf(s.profiles, e).Some? && Verdict(RowOf(s.profiles, e), e).None?
    ensures forall a :: a in acts && a.Deliver? ==> a.event == e
    ensures JustWrote(s, Exec(s, acts), d, e)
  {
    var arrive := ArriveAtProfile(s, d, e);
    var t := Exec(s, arrive);
    var step := Step(d, e.at);
    acts := arrive + ([step] + ([step] + []));
    ExecAppend(s, arrive, [step] + ([step] + []));
    ExecCons(t, step, [step] + []);
    var t1 := Apply(t, step);
    assert t1.deliveries[d].pc.CompareAndSet?;
    ExecCons(t1, step, []);
  }

  // A delivery of e that finds itself out of order and stops for ever before its mark.
  lemma LateWithoutMark(s: State, d: nat, e: Event) returns (acts: seq<Action>)
    requires CanArrive(s, d, e)
    requires Verdict(RowOf(s.profiles, e), e) == Some(OutOfOrder)
    ensures forall a :: a in acts && a.Deliver? ==> a.event == e
    ensures var t := Exec(s, acts); t.profiles == s.profiles && t.log == s.log && Reached(t, e)
  {
    var arrive := ArriveAtProfile(s, d, e);
    var t := Exec(s, arrive);
    var step := Step(d, e.at);
    acts := arrive + ([step] + []);
    ExecAppend(s, arrive, [step] + []);
    ExecCons(t, step, []);
    var t1 := Apply(t, step);
    assert t1.deliveries[d].event == e && ToldLate(t1.deliveries[d].pc);
  }

  // Two events written one after the other on a new profile.
  lemma WriteBoth(e: Event, f: Event) returns (acts: seq<Action>)
    requires Applicable(e) && Applicable(f) && e.user == f.user && KeyOf(e) != KeyOf(f) && !Outranks(e.at, f)
    ensures forall a :: a in acts && a.Deliver? ==> a.event == e || a.event == f
    ensures var t := Exec(INITIAL, acts);
            var u := e.user.value;
            && t.log == [Wrote(u, e, e.at), Wrote(u, f, f.at)]
            && t.profiles == map[u := Profile(false, Some(f.at), Some(KeyOf(f)), GrantOf(f, f.at))]
            && t.deliveries.Keys == {0, 1}
            && (!e.Restore? ==> Open(t, KeyOf(e)))
  {
    var u := e.user.value;
    var s0 := Apply(INITIAL, SignIn(u));
    var a1 := WriteWithoutMark(s0, 0, e);
    var s1 := Exec(s0, a1);
    var a2 := WriteWithoutMark(s1, 1, f);
    acts := [SignIn(u)] + (a1 + a2);
    ExecCons(INITIAL, SignIn(u), a1 + a2);
    ExecAppend(s0, a1, a2);
  }

  // ---------------------------------------------------------------- exactly when

  // Any pair that clashes can be applied as e, f, e: each delivery of e stops before its mark.
  // A webhook without a timestamp even overwrites the newer event it lost to before.
  lemma ClashIsRewritten(us: set<Event>, e: Event, f: Event) returns (acts: seq<Action>)
    requires Consistent(us) && e in us && f in us && Clash(e, f)
    ensures Over(us, acts) && Writes(Exec(INITIAL, acts).log, KeyOf(e)) == 2
    ensures e.user.value in Exec(INITIAL, acts).profiles
    ensures Exec(INITIAL, acts).profiles[e.user.value].id == Some(KeyOf(e))
  {
    var once, again := Arrived(e, f.at - 1), Arrived(e, f.at + 1);
    var a1 := WriteBoth(once, f);
    var s1 := Exec(INITIAL, a1);
    var a2 := WriteWithoutMark(s1, 2, again);
    acts := a1 + a2;
    ExecAppend(INITIAL, a1, a2);
    CountRewrite(e.user.value, once, f, again);
  }

  lemma CountRewrite(u: UserId, e: Event, f: Event, g: Event)
    requires KeyOf(e) != KeyOf(f) && KeyOf(g) == KeyOf(e)
    ensures Writes([Wrote(u, e, e.at), Wrote(u, f, f.at)] + [Wrote(u, g, g.at)], KeyOf(e)) == 2
  {
    var one := [Wrote(u, e, e.at)];
    var two := [Wrote(u, e, e.at), Wrote(u, f, f.at)];
    var log := two + [Wrote(u, g, g.at)];
    assert one[..|one| - 1] == [] && Writes(one, KeyOf(e)) == 1;
    assert two[..|two| - 1] == one && Writes(two, KeyOf(e)) == 1;
    assert log[..|log| - 1] == two;
  }

  // A webhook without a timestamp comes in at 1, is written and never marked; a newer event is
  // written at 2; the redelivery at 3 overwrites it. No two times tie.
  lemma UndatedOverwritesNewer() returns (acts: seq<Action>)
    ensures var e := Superwall("e", Some("u"), 0, false, ProOn, None);
            var f := Superwall("f", Some("u"), 2, true, ProOff, None);
            && Over({e, f}, acts)
            && Writes(Exec(INITIAL, acts).log, KeyOf(e)) == 2
            && "u" in Exec(INITIAL, acts).profiles && Exec(INITIAL, acts).profiles["u"].id == Some(KeyOf(e))
  {
    var e := Superwall("e", Some("u"), 0, false, ProOn, None);
    var f := Superwall("f", Some("u"), 2, true, ProOff, None);
    acts := ClashIsRewritten({e, f}, e, f);
  }

  // Exactly when every webhook is applied at most once, over all redeliveries and all crashes
  // between the write and the mark: when no two events clash.
  lemma AtMostOnceExactly(us: set<Event>)
    requires Consistent(us)
    ensures AtMostOnce(us) <==> NoClash(us)
  {
    if NoClash(us) {
      forall acts, k: Key | Over(us, acts) && !k.RestoreKey?
        ensures Writes(Exec(INITIAL, acts).log, k) <= 1
      {
        ReachableInv(us, acts);
        if Writes(Exec(INITIAL, acts).log, k) >= 2 {
          var e, f := RewriteNeedsClash(Exec(INITIAL, acts), us, k);
        }
      }
    } else {
      var e, f :| e in us && f in us && Clash(e, f);
      var acts := ClashIsRewritten(us, e, f);
      assert Over(us, acts) && !KeyOf(e).RestoreKey?;
    }
  }

  // ---------------------------------------------------------------- redelivery settles

  // How many uninterrupted statements a delivery still needs.
  function Remaining(pc: Pc): nat {
    match pc
    case ReadReceipt => 5
    case InsertReceipt => 4
    case RereadReceipt => 4
    case ReadProfile => 3
    case CompareAndSet(_, _, _) => 2
    case RereadProfile => 2
    case Mark(_, _) => 1
    case ConfirmMark(_) => 1
    case MarkFailed => 1
    case Done(_) => 0
  }

  // Delivery d has met no interference so far.
  ghost predicate OnCourse(s: State, d: nat, e: Event) {
    && d in s.deliveries && s.deliveries[d].event == e && !e.Restore?
    && match s.deliveries[d].pc
       case ReadReceipt => true
       case InsertReceipt => KeyOf(e) !in s.receipts
       case ReadProfile => Open(s, KeyOf(e))
       case CompareAndSet(seenAt, seenId, _) => Open(s, KeyOf(e)) && Matches(RowOf(s.profiles, e), seenAt, seenId)
       case Mark(st, o) => Open(s, KeyOf(e)) && st == StatusFor(o) && o != Errored && o != Crashed
       case Done(o) => KeyOf(e) in s.receipts && Terminal(s.receipts[KeyOf(e)].status) && o != Errored && o != Crashed
       case _ => false
  }

  function Steps(d: nat, now: Time, n: nat): seq<Action> {
    if n == 0 then [] else [Step(d, now)] + Steps(d, now, n - 1)
  }

  lemma {:induction false} StepsFinish(s: State, d: nat, e: Event, now: Time, n: nat)
    requires OnCourse(s, d, e) && Remaining(s.deliveries[d].pc) <= n
    ensures var t := Exec(s, Steps(d, now, n)); OnCourse(t, d, e) && t.deliveries[d].pc.Done?
    decreases n
  {
    if n > 0 {
      ExecCons(s, Step(d, now), Steps(d, now, n - 1));
      StepsFinish(Apply(s, Step(d, now)), d, e, now, n - 1);
    }
  }

  // A receipt that is not terminal is always retryable: from every reachable state, five
  // uninterrupted statements of a fresh delivery make it terminal and answer the sender.
  lemma RedeliverySettles(us: set<Event>, acts: seq<Action>, d: nat, e: Event, now: Time)
    requires Consistent(us) && Over(us, acts) && AsSent(e) in us && !e.Restore?
    requires d !in Exec(INITIAL, acts).deliveries
    ensures var t := Exec(INITIAL, acts + ([Deliver(d, e)] + Steps(d, now, 5)));
            && d in t.deliveries && t.deliveries[d].pc.Done? && t.deliveries[d].pc.outcome != Errored
            && KeyOf(e) in t.receipts && Terminal(t.receipts[KeyOf(e)].status)
  {
    var s := Exec(INITIAL, acts);
    ExecAppend(INITIAL, acts, [Deliver(d, e)] + Steps(d, now, 5));
    ExecCons(s, Deliver(d, e), Steps(d, now, 5));
    StepsFinish(Apply(s, Deliver(d, e)), d, e, now, 5);
  }
}
