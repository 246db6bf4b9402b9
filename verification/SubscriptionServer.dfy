/**
 The handlers in the source's own order of statements, each statement on the mutable tables,
 with arbitrary interference by other deliveries between any two statements. Their contracts
 say that what they do is always a run of the state machine in Subscriptions.dfy, and hence
 carry that machine's theorems over to the value each handler returns.
 */
module SubscriptionServer {
  import opened Options
  import opened Subscriptions
  import opened SubscriptionInvariant
  import opened SubscriptionTheorems

  class Server {
    var profiles: map<UserId, Profile>
    var receipts: map<Key, Receipt>
    // Where every delivery stands, what was written and what happened so far.
    ghost var deliveries: map<nat, Delivery>
    ghost var log: seq<Entry>
    ghost var trace: seq<Action>
    ghost const universe: set<Event>

    ghost function Model(): State
      reads this
    {
      State(profiles, receipts, deliveries, log)
    }

    ghost predicate Valid()
      reads this
    {
      Consistent(universe) && Over(universe, trace) && Model() == Exec(INITIAL, trace)
    }

    // Delivery d of event e stands at pc.
    ghost predicate Stands(d: nat, e: Event, pc: Pc)
      reads this
    {
      d in deliveries && deliveries[d] == Delivery(e, pc)
    }

    constructor (ghost us: set<Event>)
      requires Consistent(us)
      ensures Valid() && universe == us && trace == []
    {
      profiles, receipts, deliveries, log, trace := map[], map[], map[], [], [];
      universe := us;
    }

    // Any number of actions of everyone but delivery d. The body stands for doing none of
    // them; callers rely on the contract alone. OthersLeaveAlone below shows that every
    // action of another delivery keeps to it.
    method Interfere(ghost d: nat)
      requires Valid() && d in deliveries
      modifies this
      ensures Valid() && old(trace) <= trace
      ensures d in deliveries && deliveries[d] == old(deliveries[d])
    {
    }

    // Books the action whose effect on the two tables has just been made.
    ghost method Book(before: State, a: Action)
      requires before == Exec(INITIAL, trace) && Consistent(universe) && Over(universe, trace)
      requires a.Deliver? ==> AsSent(a.event) in universe
      requires profiles == Apply(before, a).profiles && receipts == Apply(before, a).receipts
      modifies this`deliveries, this`log, this`trace
      ensures Valid() && trace == old(trace) + [a]
      ensures Model() == Apply(before, a)
    {
      ExecAppend(INITIAL, trace, [a]);
      var after := Apply(before, a);
      deliveries, log, trace := after.deliveries, after.log, trace + [a];
    }

    // ---------------------------------------------------------------- single statements

    // select status from the receipt table where event_id = ...
    method SelectReceipt(ghost d: nat, e: Event, now: Time) returns (found: Option<Receipt>)
      requires Valid() && (Stands(d, e, ReadReceipt) || Stands(d, e, RereadReceipt))
      modifies this
      ensures Valid() && trace == old(trace) + [Step(d, now)]
      ensures found == if KeyOf(e) in old(receipts) then Some(old(receipts)[KeyOf(e)]) else None
      ensures Stands(d, e, if found.Some? then (if Terminal(found.value.status) then Done(Replayed) else Admit(e, now))
                           else if old(deliveries[d].pc) == ReadReceipt then Pc.InsertReceipt else Raise(e))
    {
      found := if KeyOf(e) in receipts then Some(receipts[KeyOf(e)]) else None;
      Book(Model(), Step(d, now));
    }

    // insert into the receipt table; false on a unique violation.
    method InsertReceipt(ghost d: nat, e: Event, now: Time) returns (inserted: bool)
      requires Valid() && Stands(d, e, Pc.InsertReceipt)
      modifies this
      ensures Valid() && trace == old(trace) + [Step(d, now)]
      ensures inserted <==> KeyOf(e) !in old(receipts)
      ensures receipts == if inserted then old(receipts)[KeyOf(e) := Receipt(e, Received, e)] else old(receipts)
      ensures profiles == old(profiles)
      ensures Stands(d, e, if inserted then Admit(e, now) else RereadReceipt)
    {
      ghost var before := Model();
      inserted := KeyOf(e) !in receipts;
      if inserted {
        receipts := receipts[KeyOf(e) := Receipt(e, Received, e)];
      }
      Book(before, Step(d, now));
    }

    // select subscription_event_at, subscription_event_id, deleted_at from profiles.
    method SelectProfile(ghost d: nat, e: Event, now: Time) returns (row: Option<Profile>)
      requires Valid() && (Stands(d, e, ReadProfile) || Stands(d, e, RereadProfile))
      modifies this
      ensures Valid() && trace == old(trace) + [Step(d, now)]
      ensures row == RowOf(old(profiles), e)
      ensures Stands(d, e, if Verdict(row, e).Some? then Conclude(e, Verdict(row, e).value)
                           else if old(deliveries[d].pc) == ReadProfile
                               then CompareAndSet(row.value.at, row.value.id, now)
                           else Raise(e))
    {
      row := RowOf(profiles, e);
      Book(Model(), Step(d, now));
    }

    // update profiles ... where the row still carries what was seen; true if a row came back.
    method UpdateProfile(ghost d: nat, e: Event, seenAt: Option<Time>, seenId: Option<Key>, clock: Time)
      returns (updated: bool)
      requires Valid() && Stands(d, e, CompareAndSet(seenAt, seenId, clock))
      modifies this
      ensures Valid() && trace == old(trace) + [Step(d, clock)]
      ensures Stands(d, e, if updated then Conclude(e, Updated) else RereadProfile)
      ensures updated <==>
                && e.user.Some? && e.user.value in old(profiles)
                && var row := old(profiles)[e.user.value]; !row.deleted && row.at == seenAt && row.id == seenId
      ensures !updated ==> profiles == old(profiles)
      ensures updated ==>
                && e.user.value in profiles && profiles == old(profiles)[e.user.value := profiles[e.user.value]]
                && var row := profiles[e.user.value];
                   && !row.deleted && row.at == Some(e.at) && row.id == Some(KeyOf(e))
                   && Entitles(e, clock, row.grant.isPro, row.grant.expires)
      ensures receipts == old(receipts)
    {
      ghost var before := Model();
      GrantEntitles(e, clock);
      var row := RowOf(profiles, e);
      updated := Matches(row, seenAt, seenId);
      if updated {
        profiles := profiles[e.user.value := Profile(false, Some(e.at), Some(KeyOf(e)), GrantOf(e, clock))];
      }
      Book(before, Step(d, clock));
    }

    // update the receipt's status where it is received or failed; true if a row came back.
    method UpdateStatus(ghost d: nat, e: Event, st: Status, ghost pc: Pc) returns (changed: bool)
      requires Valid() && Stands(d, e, pc)
      requires (pc.Mark? && pc.status == st) || (pc.MarkFailed? && st == Failed)
      modifies this
      ensures Valid() && trace == old(trace) + [Step(d, 0)]
      ensures Stands(d, e, if pc.MarkFailed? then Done(Errored)
                           else if changed then Done(pc.outcome) else ConfirmMark(pc.outcome))
      ensures changed <==>
                KeyOf(e) in old(receipts) &&
                (old(receipts)[KeyOf(e)].status == Received || old(receipts)[KeyOf(e)].status == Failed)
      ensures !changed ==> receipts == old(receipts)
      ensures changed ==>
                receipts == old(receipts)[KeyOf(e) := Receipt(old(receipts)[KeyOf(e)].event, st, e)]
      ensures profiles == old(profiles)
    {
      ghost var before := Model();
      var k := KeyOf(e);
      changed := k in receipts && !Terminal(receipts[k].status);
      if changed {
        receipts := receipts[k := receipts[k].(status := st, setBy := e)];
      }
      Book(before, Step(d, 0));
    }

    // The second read of _mark_event: a terminal receipt is fine, anything else is an error.
    method ConfirmStatus(ghost d: nat, e: Event, ghost o: Outcome) returns (ok: bool)
      requires Valid() && Stands(d, e, ConfirmMark(o))
      modifies this
      ensures Valid() && trace == old(trace) + [Step(d, 0)]
      ensures ok && Stands(d, e, Done(o))
    {
      ghost var before := Model();
      ReachableInv(universe, trace);
      assert DeliverySound(before, before.deliveries[d].event, before.deliveries[d].pc);
      ok := KeyOf(e) in receipts && Terminal(receipts[KeyOf(e)].status);
      Book(before, Step(d, 0));
    }

    // ---------------------------------------------------------------- the source's functions

    // _record_event and _record_notification: true if the event still has to be processed.
    method RecordEvent(ghost d: nat, e: Event, now: Time) returns (pending: bool)
      requires Valid() && Stands(d, e, ReadReceipt) && !e.Restore?
      modifies this
      ensures Valid() && old(trace) <= trace
      ensures Stands(d, e, if pending then Admit(e, now) else Done(Replayed))
    {
      var existing := SelectReceipt(d, e, now);
      if existing.Some? {
        return !Terminal(existing.value.status);
      }
      Interfere(d);
      var inserted := InsertReceipt(d, e, now);
      if inserted {
        return true;
      }
      Interfere(d);
      ReachableInv(universe, trace);
      assert DeliverySound(Model(), deliveries[d].event, deliveries[d].pc);
      existing := SelectReceipt(d, e, now);
      return !Terminal(existing.value.status);
    }

    // _apply_notification_to_profile, and the same statements of _apply_superwall_event.
    // None is the raised "changed concurrently; retry".
    method ApplyToProfile(ghost d: nat, e: Event) returns (outcome: Option<Outcome>)
      requires Valid() && Stands(d, e, ReadProfile)
      modifies this
      ensures Valid() && old(trace) <= trace
      ensures Stands(d, e, if outcome.Some? then Conclude(e, outcome.value) else Raise(e))
      ensures outcome.Some? ==> outcome.value != Errored && outcome.value != Crashed && outcome.value != Replayed
    {
      var now: Time := *;
      var current := SelectProfile(d, e, now);
      var verdict := Verdict(current, e);
      if verdict.Some? {
        return verdict;
      }
      Interfere(d);
      var updated := UpdateProfile(d, e, current.value.at, current.value.id, now);
      if updated {
        return Some(Updated);
      }
      Interfere(d);
      var latest := SelectProfile(d, e, now);
      return Verdict(latest, e);
    }

    // _mark_event and _mark_notification.
    method MarkEvent(ghost d: nat, e: Event, o: Outcome)
      requires Valid() && Stands(d, e, Mark(StatusFor(o), o))
      modifies this
      ensures Valid() && old(trace) <= trace
      ensures Stands(d, e, Done(o))
    {
      var changed := UpdateStatus(d, e, StatusFor(o), Mark(StatusFor(o), o));
      if !changed {
        Interfere(d);
        var ok := ConfirmStatus(d, e, o);
      }
    }

    // What follows a pending receipt: the gate, the profile, the mark, and on an exception
    // the handler that marks the receipt failed.
    method Reconcile(ghost d: nat, e: Event, now: Time) returns (outcome: Outcome)
      requires Valid() && Stands(d, e, Admit(e, now)) && !e.Restore?
      modifies this
      ensures Valid() && old(trace) <= trace
      ensures Stands(d, e, Done(outcome))
    {
      var concluded := Gate(e, now);
      if concluded.None? {
        concluded := ApplyToProfile(d, e);
        Interfere(d);
      }
      if concluded.Some? {
        outcome := concluded.value;
        MarkEvent(d, e, outcome);
      } else {
        outcome := Errored;
        var changed := UpdateStatus(d, e, Failed, MarkFailed);
      }
    }

    // apply_superwall_event and process_signed_notification, from what was sent to the answer.
    // An event without a timestamp of its own goes by the clock at which this delivery came in.
    method ProcessEvent(ghost d: nat, sent: Event) returns (outcome: Outcome, ghost e: Event)
      requires Valid() && d !in deliveries && sent in universe && !sent.Restore?
      modifies this
      ensures Valid() && old(trace) <= trace
      ensures AsSent(e) == sent && Stands(d, e, Done(outcome))
      ensures Vouched(Model(), e, outcome)
      ensures outcome != Errored && outcome != Crashed ==>
                KeyOf(sent) in receipts && Terminal(receipts[KeyOf(sent)].status)
    {
      var cameIn: Time := *;
      var event := Arrived(sent, cameIn);
      e := event;
      Book(Model(), Deliver(d, event));
      Interfere(d);
      var now: Time := *;
      var pending := RecordEvent(d, event, now);
      if pending {
        Interfere(d);
        outcome := Reconcile(d, event, now);
      } else {
        outcome := Replayed;
      }
      AnswerIsTrue(universe, trace, d, event, outcome);
    }

    // restore_subscription_for_user after its transactions were verified: reconcile at the
    // restore's own time, then answer from the row as it is by then.
    method RestoreSubscription(ghost d: nat, e: Event) returns (restored: Option<bool>)
      requires Valid() && d !in deliveries && e in universe && e.Restore?
      modifies this
      ensures Valid() && old(trace) <= trace
      ensures exists o :: Stands(d, e, Done(o)) && Vouched(Model(), e, o)
      ensures restored.Some? ==>
                var row := RowOf(profiles, e);
                && row.Some? && !row.value.deleted
                && (restored.value <==> row.value.grant.isPro &&
                                        (row.value.grant.expires.None? || row.value.grant.expires.value > e.at))
    {
      Book(Model(), Deliver(d, e));
      Interfere(d);
      var outcome := ApplyToProfile(d, e);
      Interfere(d);
      ghost var o := if outcome.Some? then outcome.value else Errored;
      assert Stands(d, e, Done(o));
      AnswerIsTrue(universe, trace, d, e, o);
      var row := RowOf(profiles, e);
      if outcome.None? || row.None? || row.value.deleted {
        return None;
      }
      var grant := row.value.grant;
      return Some(grant.isPro && (grant.expires.None? || grant.expires.value > e.at));
    }
  }

  // No action of anyone else moves delivery d, so Interfere's contract covers every run of
  // the others.
  lemma {:induction false} OthersLeaveAlone(s: State, d: nat, acts: seq<Action>)
    requires d in s.deliveries
    requires forall a :: a in acts ==> a.SignIn? || a.CloseAccount? || a.d != d
    ensures d in Exec(s, acts).deliveries && Exec(s, acts).deliveries[d] == s.deliveries[d]
    decreases |acts|
  {
    if acts != [] {
      assert acts[0] in acts;
      OthersLeaveAlone(Apply(s, acts[0]), d, acts[1..]);
    }
  }

  // What a handler answers is true of the tables, and any answer but an error leaves a
  // terminal receipt behind.
  lemma AnswerIsTrue(us: set<Event>, acts: seq<Action>, d: nat, e: Event, o: Outcome)
    requires Consistent(us) && Over(us, acts)
    requires var s := Exec(INITIAL, acts); d in s.deliveries && s.deliveries[d] == Delivery(e, Done(o))
    ensures var s := Exec(INITIAL, acts);
            && Vouched(s, e, o)
            && (!e.Restore? && o != Errored && o != Crashed ==>
                  KeyOf(e) in s.receipts && Terminal(s.receipts[KeyOf(e)].status))
  {
    ReachableInv(us, acts);
    var s := Exec(INITIAL, acts);
    assert DeliverySound(s, s.deliveries[d].event, s.deliveries[d].pc);
  }
}
