/** When the order in which events arrive makes no difference to the event a profile ends with. */
module SubscriptionConvergence {
  import opened Options
  import opened Subscriptions
  import opened SubscriptionInvariant
  import opened SubscriptionTheorems

  // The event reached the ordering check, at whatever time its delivery went by.
  ghost predicate ReachedMessage(s: State, m: Event) {
    exists e: Event :: AsSent(e) == m && Reached(s, e)
  }

  ghost predicate SameReached(s: State, t: State, u: UserId) {
    forall m: Event :: m.user == Some(u) ==> (ReachedMessage(s, m) <==> ReachedMessage(t, m))
  }

  // The two are told apart only by the order in which they arrive: one of them has no time of
  // its own, or they tie and the ordering check treats them alike.
  predicate Arguable(e: Event, f: Event) {
    && KeyOf(e) != KeyOf(f) && Applicable(e) && Applicable(f) && e.user == f.user
    && (!Dated(e) || !Dated(f) || (e.at == f.at && (e.Superwall? <==> f.Superwall?)))
  }

  ghost predicate Settled(us: set<Event>, u: UserId) {
    forall e, f :: e in us && f in us && e.user == Some(u) ==> !Arguable(e, f)
  }

  // Two runs in which the same events reached the ordering check leave the same event on u's
  // profile, whatever the order, the duplicates, the failures and the crashes.
  ghost predicate Converges(us: set<Event>, u: UserId) {
    forall acts, bcts ::
      && Over(us, acts) && Over(us, bcts)
      && u in Exec(INITIAL, acts).profiles && u in Exec(INITIAL, bcts).profiles
      && SameReached(Exec(INITIAL, acts), Exec(INITIAL, bcts), u) ==>
        Exec(INITIAL, acts).profiles[u].id == Exec(INITIAL, bcts).profiles[u].id
  }

  // ---------------------------------------------------------------- the same winner

  // At one time a Superwall event prevails over the others, in either order.
  lemma SuperwallWinsTies(s: State, us: set<Event>, u: UserId, v: Event)
    requires Inv(s, us) && u in s.profiles && s.profiles[u].at == Some(v.at)
    requires v.Superwall? && v.user == Some(u) && Reached(s, v)
    ensures s.profiles[u].id.Some? && s.profiles[u].id.value.SuperwallKey?
  {
    var j := LastWrite(s.log, u);
    LateIsPassed(s, us, v);
    var i :| 0 <= i < |s.log| && s.log[i].Wrote? && s.log[i].event == v;
    assert s.log[i].event.user == Some(s.log[i].user);
    assert i <= j;
  }

  // A dated event reached in one run is reached in the other with the same time.
  lemma DatedCarriesOver(s: State, t: State, u: UserId, v: Event)
    requires SameReached(s, t, u) && v.user == Some(u) && Dated(v) && Reached(s, v)
    ensures Reached(t, v)
  {
    assert ReachedMessage(s, v) by {
      assert AsSent(v) == v && Reached(s, v);
    }
    var e: Event :| AsSent(e) == v && Reached(t, e);
    assert Dated(e);
  }

  lemma SameTimes(s: State, t: State, us: set<Event>, u: UserId, v: Event, w: Event)
    requires Inv(s, us) && Inv(t, us) && SameReached(s, t, u) && u in s.profiles && u in t.profiles
    requires Dated(v) && Dated(w) && v.user == w.user == Some(u) && Reached(s, v) && Reached(t, w)
    requires s.profiles[u].at == Some(v.at) && t.profiles[u].at == Some(w.at)
    ensures v.at == w.at && Reached(t, v) && Reached(s, w)
  {
    DatedCarriesOver(s, t, u, v);
    DatedCarriesOver(t, s, u, w);
    ReachedIsDominated(t, us, v);
    ReachedIsDominated(s, us, w);
  }

  // The event grants the same whenever it is applied.
  ghost predicate ClockFree(e: Event) {
    forall m, n :: GrantOf(e, m) == GrantOf(e, n)
  }

  // No other event has this key and this time; for a webhook that goes without saying.
  ghost predicate OnlyOne(us: set<Event>, e: Event) {
    forall f :: f in us && KeyOf(f) == KeyOf(e) && f.at == e.at ==> f == e
  }

  // What is said of the winner of two runs.
  ghost predicate Agree(us: set<Event>, p: Profile, q: Profile, m: Event, scrubbed: bool) {
    && m in us && p.id == q.id == Some(KeyOf(m))
    && (Dated(m) && OnlyOne(us, m) ==> p.at == q.at)
    && (ClockFree(m) && OnlyOne(us, m) && !scrubbed ==> p.grant == q.grant)
  }

  lemma SameKeyAgrees(us: set<Event>, s: State, t: State, u: UserId, v: Entry, w: Entry, scrubbed: bool)
    requires Inv(s, us) && Inv(t, us) && Consistent(us) && SameReached(s, t, u) && u in s.profiles && u in t.profiles
    requires v.Wrote? && w.Wrote? && v.event.user == w.event.user == Some(u)
    requires AsSent(v.event) in us && AsSent(w.event) in us && Reached(s, v.event) && Reached(t, w.event)
    requires KeyOf(v.event) == KeyOf(w.event)
    requires s.profiles[u].at == Some(v.event.at) && t.profiles[u].at == Some(w.event.at)
    requires s.profiles[u].id == Some(KeyOf(v.event)) && t.profiles[u].id == Some(KeyOf(w.event))
    requires !scrubbed ==> s.profiles[u].grant == GrantOf(v.event, v.clock)
    requires !scrubbed ==> t.profiles[u].grant == GrantOf(w.event, w.clock)
    ensures Agree(us, s.profiles[u], t.profiles[u], AsSent(v.event), scrubbed)
  {
    var m, n := AsSent(v.event), AsSent(w.event);
    assert KeyOf(m) == KeyOf(n);
    if m.Restore? {
      SameTimes(s, t, us, u, m, n);
    } else {
      assert m == n;
    }
    if OnlyOne(us, m) {
      assert m == n;
      assert GrantOf(v.event, v.clock) == GrantOf(m, v.clock) && GrantOf(w.event, w.clock) == GrantOf(m, w.clock);
    }
  }

  lemma WinnerApplies(us: set<Event>, s: State, u: UserId, v: Event)
    requires Inv(s, us) && u in s.profiles && s.profiles[u].id == Some(KeyOf(v)) && v.user == Some(u)
    requires Consistent(us) && AsSent(v) in us
    ensures Applicable(v)
  {
    IdWasWritten(s.log, u, KeyOf(v));
    var i :| 0 <= i < |s.log| && s.log[i].Wrote? && s.log[i].user == u && KeyOf(s.log[i].event) == KeyOf(v);
    assert KeyOf(AsSent(s.log[i].event)) == KeyOf(AsSent(v));
  }

  lemma SameKey(us: set<Event>, s: State, t: State, u: UserId, v: Event, w: Event)
    requires Inv(s, us) && Inv(t, us) && SameReached(s, t, u) && Settled(us, u) && u in s.profiles && u in t.profiles
    requires v.user == w.user == Some(u) && Applicable(v) && Applicable(w)
    requires AsSent(v) in us && AsSent(w) in us && Reached(s, v) && Reached(t, w)
    requires s.profiles[u].at == Some(v.at) && t.profiles[u].at == Some(w.at)
    requires s.profiles[u].id == Some(KeyOf(v)) && t.profiles[u].id == Some(KeyOf(w))
    ensures KeyOf(v) == KeyOf(w)
  {
    if KeyOf(v) != KeyOf(w) {
      assert !Arguable(AsSent(v), AsSent(w));
      assert Dated(v) && Dated(w);
      SameTimes(s, t, us, u, v, w);
      if v.Superwall? {
        SuperwallWinsTies(t, us, u, v);
      } else {
        SuperwallWinsTies(s, us, u, w);
      }
    }
  }

  lemma BothHaveWinners(us: set<Event>, s: State, t: State, u: UserId, v: Event)
    requires Inv(t, us) && SameReached(s, t, u) && u in t.profiles && v.user == Some(u) && Reached(s, v)
    ensures t.profiles[u].at.Some?
  {
    assert ReachedMessage(s, AsSent(v));
    var e: Event :| AsSent(e) == AsSent(v) && Reached(t, e);
    ReachedIsDominated(t, us, e);
  }

  predicate EitherScrubbed(s: State, t: State, u: UserId) {
    Scrubbed(u) in s.log || Scrubbed(u) in t.log
  }

  // Convergence: two runs that delivered a user's events in any two orders, with any
  // duplicates, failures and crashes, and in which the same events reached the ordering check,
  // leave the same event on the profile; the same time, if it is the event's own; and the same
  // entitlement, unless it depends on the clock or the account was closed since.
  lemma Convergence(us: set<Event>, acts: seq<Action>, bcts: seq<Action>, u: UserId) returns (m: Event)
    requires Consistent(us) && Settled(us, u) && Over(us, acts) && Over(us, bcts)
    requires u in Exec(INITIAL, acts).profiles && u in Exec(INITIAL, bcts).profiles
    requires SameReached(Exec(INITIAL, acts), Exec(INITIAL, bcts), u)
    ensures var s, t := Exec(INITIAL, acts), Exec(INITIAL, bcts);
            && s.profiles[u].id == t.profiles[u].id
            && (s.profiles[u].id.Some? ==> Agree(us, s.profiles[u], t.profiles[u], m, EitherScrubbed(s, t, u)))
  {
    var v := NewestEventWins(us, acts, u);
    var w := NewestEventWins(us, bcts, u);
    var s, t := Exec(INITIAL, acts), Exec(INITIAL, bcts);
    ReachableInv(us, acts);
    ReachableInv(us, bcts);
    m := Restore("", None, 0, None);
    if s.profiles[u].at.Some? {
      BothHaveWinners(us, s, t, u, v.event);
      WinnerApplies(us, s, u, v.event);
      WinnerApplies(us, t, u, w.event);
      SameKey(us, s, t, u, v.event, w.event);
      SameKeyAgrees(us, s, t, u, v, w, EitherScrubbed(s, t, u));
      m := AsSent(v.event);
    } else if t.profiles[u].at.Some? {
      BothHaveWinners(us, t, s, u, w.event);
    }
  }

  // ---------------------------------------------------------------- different winners

  // A run over e and f in which both reached the ordering check and e won.
  ghost predicate Won(acts: seq<Action>, e: Event, f: Event, u: UserId) {
    var s := Exec(INITIAL, acts);
    && Over({e, f}, acts) && u in s.profiles && s.profiles[u].id == Some(KeyOf(e))
    && ReachedMessage(s, e) && ReachedMessage(s, f)
  }

  lemma OnlyThese(acts: seq<Action>, e: Event, f: Event, m: Event)
    requires Consistent({e, f}) && Over({e, f}, acts) && ReachedMessage(Exec(INITIAL, acts), m)
    ensures m == e || m == f
  {
    ReachableInv({e, f}, acts);
    var x: Event :| AsSent(x) == m && Reached(Exec(INITIAL, acts), x);
    LateIsPassed(Exec(INITIAL, acts), {e, f}, x);
  }

  // First e as it went by, then f: the second wins.
  lemma SecondWins(e: Event, f: Event, e1: Event, f1: Event, u: UserId) returns (acts: seq<Action>)
    requires Applicable(e) && Applicable(f) && e.user == f.user == Some(u) && KeyOf(e) != KeyOf(f)
    requires AsSent(e1) == e && AsSent(f1) == f && !Outranks(e1.at, f1)
    ensures Won(acts, f, e, u)
  {
    acts := WriteBoth(e1, f1);
    var t := Exec(INITIAL, acts);
    assert t.log[0] == Wrote(u, e1, e1.at) && t.log[1] == Wrote(u, f1, f1.at);
    assert Reached(t, e1) && Reached(t, f1);
  }

  // Of two that tie and are no Superwall events the first wins.
  lemma FirstWins(e: Event, f: Event, u: UserId) returns (acts: seq<Action>)
    requires Applicable(e) && Applicable(f) && e.user == f.user == Some(u) && KeyOf(e) != KeyOf(f)
    requires !e.Superwall? && !f.Superwall? && e.at == f.at
    ensures Won(acts, e, f, u)
  {
    var s0 := Apply(INITIAL, SignIn(u));
    var a1 := WriteWithoutMark(s0, 0, e);
    var s1 := Exec(s0, a1);
    var a2 := LateWithoutMark(s1, 1, f);
    acts := [SignIn(u)] + (a1 + a2);
    ExecCons(INITIAL, SignIn(u), a1 + a2);
    ExecAppend(s0, a1, a2);
    var t := Exec(INITIAL, acts);
    assert t.log[0] == Wrote(u, e, e.at);
    assert Reached(t, e) && AsSent(e) == e && AsSent(f) == f;
  }

  lemma Diverge(e: Event, f: Event, u: UserId) returns (acts: seq<Action>, bcts: seq<Action>)
    requires Arguable(e, f) && e.user == Some(u) && AsSent(e) == e && AsSent(f) == f
    ensures Won(acts, e, f, u) && Won(bcts, f, e, u)
  {
    if !Dated(e) {
      acts := SecondWins(f, e, f, Arrived(e, f.at + 1), u);
      bcts := SecondWins(e, f, Arrived(e, f.at - 1), f, u);
    } else if !Dated(f) {
      acts := SecondWins(f, e, Arrived(f, e.at - 1), e, u);
      bcts := SecondWins(e, f, e, Arrived(f, e.at + 1), u);
    } else if e.Superwall? {
      acts := SecondWins(f, e, f, e, u);
      bcts := SecondWins(e, f, e, f, u);
    } else {
      acts := FirstWins(e, f, u);
      bcts := FirstWins(f, e, u);
    }
  }

  // Exactly when arrival order makes no difference: when no two events of the user are told
  // apart by it alone.
  lemma ConvergesExactly(us: set<Event>, u: UserId)
    requires Consistent(us)
    ensures Converges(us, u) <==> Settled(us, u)
  {
    if Settled(us, u) {
      forall acts, bcts |
        && Over(us, acts) && Over(us, bcts)
        && u in Exec(INITIAL, acts).profiles && u in Exec(INITIAL, bcts).profiles
        && SameReached(Exec(INITIAL, acts), Exec(INITIAL, bcts), u)
        ensures Exec(INITIAL, acts).profiles[u].id == Exec(INITIAL, bcts).profiles[u].id
      {
        var m := Convergence(us, acts, bcts, u);
      }
    } else {
      var e, f :| e in us && f in us && e.user == Some(u) && Arguable(e, f);
      var acts, bcts := Diverge(e, f, u);
      var s, t := Exec(INITIAL, acts), Exec(INITIAL, bcts);
      assert Over(us, acts) && Over(us, bcts);
      forall m: Event | m.user == Some(u)
        ensures ReachedMessage(s, m) <==> ReachedMessage(t, m)
      {
        if ReachedMessage(s, m) {
          OnlyThese(acts, e, f, m);
        }
        if ReachedMessage(t, m) {
          OnlyThese(bcts, e, f, m);
        }
      }
      assert SameReached(s, t, u);
    }
  }
}
