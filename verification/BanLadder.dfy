/**
 Temporary bans for repeated rate-limit violations. The code keeps, per key, a deque of recent
 violations, a deadline and a level. The record beside it keeps every ban the code ever
 imposed, with the violations it counted; the ledger is a definition over the whole history,
 which forgets nothing. The clock is read before the lock is taken, so violations need not come
 in the order of their times.
 */
module BanLadder {
  import opened Options
  import opened RateLimits

  const BAN_WINDOW: real := 300.0
  const BAN_THRESHOLD: nat := 3

  // The seconds of the n-th ban of a key, counting from 0.
  function Duration(n: nat): real {
    if n == 0 then 300.0 else if n == 1 then 3600.0 else 86400.0
  }

  // ---------------------------------------------------------------- the code's state

  datatype BanState = BanState(violations: seq<real>, bannedUntil: real, level: nat)

  const UNBANNED := BanState([], 0.0, 0)

  function Violate(st: BanState, now: real): BanState {
    if st.bannedUntil > now then st
    else
      var violations := Cut(st.violations, now - BAN_WINDOW) + [now];
      if |violations| < BAN_THRESHOLD then st.(violations := violations)
      else BanState([], now + Duration(st.level), st.level + 1)
  }

  function StateAfter(vs: seq<real>): BanState {
    if vs == [] then UNBANNED else Violate(StateAfter(vs[..|vs| - 1]), vs[|vs| - 1])
  }

  // ---------------------------------------------------------------- the record

  datatype Ban = Ban(start: real, seconds: real, causes: seq<real>)

  function End(b: Ban): real {
    b.start + b.seconds
  }

  // When the last ban ends; the source's deadline starts at zero.
  function Deadline(bans: seq<Ban>): real {
    if bans == [] then 0.0 else End(bans[|bans| - 1])
  }

  datatype Record = Record(state: BanState, bans: seq<Ban>)

  // The ban that a violation at time t brings about, if it does.
  function NewBan(st: BanState, t: real): Option<Ban> {
    var violations := Cut(st.violations, t - BAN_WINDOW) + [t];
    if st.bannedUntil > t || |violations| < BAN_THRESHOLD then None
    else Some(Ban(t, Duration(st.level), violations))
  }

  function Enter(r: Record, t: real): Record {
    var ban := NewBan(r.state, t);
    Record(Violate(r.state, t), if ban.Some? then r.bans + [ban.value] else r.bans)
  }

  function RecordOf(vs: seq<real>): Record {
    if vs == [] then Record(UNBANNED, []) else Enter(RecordOf(vs[..|vs| - 1]), vs[|vs| - 1])
  }

  function BansOf(vs: seq<real>): seq<Ban> {
    RecordOf(vs).bans
  }

  lemma {:induction false} RecordsTheState(vs: seq<real>)
    ensures RecordOf(vs).state == StateAfter(vs)
    decreases |vs|
  {
    if vs != [] {
      RecordsTheState(vs[..|vs| - 1]);
    }
  }

  // ---------------------------------------------------------------- the ladder, at any times

  // A ban is caused by exactly three violations, the last of which starts it, all of them at or
  // after the end of the ban before; its length is its rung.
  ghost predicate BanSound(bans: seq<Ban>, n: nat)
    requires n < |bans|
  {
    var b := bans[n];
    && b.seconds == Duration(n)
    && |b.causes| == BAN_THRESHOLD && b.causes[BAN_THRESHOLD - 1] == b.start
    && (forall i :: 0 <= i < |b.causes| ==> Deadline(bans[..n]) <= b.causes[i])
  }

  ghost predicate RecordSound(r: Record) {
    && r.state.level == |r.bans| && r.state.bannedUntil == Deadline(r.bans)
    && |r.state.violations| < BAN_THRESHOLD
    && (forall i :: 0 <= i < |r.state.violations| ==> Deadline(r.bans) <= r.state.violations[i])
    && (forall n: nat :: n < |r.bans| ==> BanSound(r.bans, n))
  }

  lemma {:induction false} CutKeepsAbove(ts: seq<real>, cutoff: real, lo: real)
    requires forall i :: 0 <= i < |ts| ==> lo <= ts[i]
    ensures |Cut(ts, cutoff)| <= |ts| && forall i :: 0 <= i < |Cut(ts, cutoff)| ==> lo <= Cut(ts, cutoff)[i]
    decreases |ts|
  {
    if ts != [] && ts[0] <= cutoff {
      CutKeepsAbove(ts[1..], cutoff, lo);
    }
  }

  lemma EarlierBansStaySound(bans: seq<Ban>, b: Ban, n: nat)
    requires n < |bans| && BanSound(bans, n)
    ensures BanSound(bans + [b], n)
  {
    assert (bans + [b])[..n] == bans[..n];
  }

  lemma EnterSound(r: Record, t: real)
    requires RecordSound(r)
    ensures RecordSound(Enter(r, t))
  {
    CutKeepsAbove(r.state.violations, t - BAN_WINDOW, Deadline(r.bans));
    var ban := NewBan(r.state, t);
    if ban.Some? {
      var bans := r.bans + [ban.value];
      forall n: nat | n < |bans|
        ensures BanSound(bans, n)
      {
        if n < |r.bans| {
          EarlierBansStaySound(r.bans, ban.value, n);
        } else {
          assert bans[..n] == r.bans;
        }
      }
    }
  }

  // On every history of violations, in any order of their times, the record is sound.
  lemma {:induction false} HistorySound(vs: seq<real>)
    ensures RecordSound(RecordOf(vs))
    decreases |vs|
  {
    if vs != [] {
      HistorySound(vs[..|vs| - 1]);
      EnterSound(RecordOf(vs[..|vs| - 1]), vs[|vs| - 1]);
    }
  }

  // The ladder, on every history: rungs of 300, 3600 and then 86400 seconds, no two bans
  // overlap, and each has its own three causes after the ban before it.
  lemma {:induction false} LadderHolds(vs: seq<real>, m: nat, n: nat)
    requires m < n < |BansOf(vs)|
    ensures var bans := BansOf(vs);
            && BanSound(bans, m) && BanSound(bans, n)
            && (m == 0 ==> bans[m].seconds == 300.0) && (n == 1 ==> bans[n].seconds == 3600.0)
            && (n >= 2 ==> bans[n].seconds == 86400.0)
            && |bans[n].causes| == 3 && bans[n].causes[2] == bans[n].start
            && End(bans[m]) <= bans[n].start
            && (forall i :: 0 <= i < |bans[n].causes| ==> End(bans[m]) <= bans[n].causes[i])
    decreases n - m
  {
    HistorySound(vs);
    var bans := BansOf(vs);
    assert BanSound(bans, n) && BanSound(bans, n - 1);
    assert Deadline(bans[..n]) == End(bans[n - 1]);
    if m < n - 1 {
      LadderHolds(vs, m, n - 1);
    }
  }

  // ---------------------------------------------------------------- no violation counts twice

  function AllCauses(bans: seq<Ban>): seq<real> {
    if bans == [] then [] else AllCauses(bans[..|bans| - 1]) + bans[|bans| - 1].causes
  }

  lemma {:induction false} CutIsPart(ts: seq<real>, cutoff: real)
    ensures multiset(Cut(ts, cutoff)) <= multiset(ts)
    decreases |ts|
  {
    if ts != [] && ts[0] <= cutoff {
      CutIsPart(ts[1..], cutoff);
      assert ts == [ts[0]] + ts[1..];
    }
  }

  // The causes of all bans and the violations still being watched are among the violations
  // that took place, and none is counted twice.
  ghost predicate CountedOnce(r: Record, vs: seq<real>) {
    multiset(AllCauses(r.bans)) + multiset(r.state.violations) <= multiset(vs)
  }

  lemma EnterCountsOnce(r: Record, vs: seq<real>, t: real)
    requires CountedOnce(r, vs)
    ensures CountedOnce(Enter(r, t), vs + [t])
  {
    var left := Cut(r.state.violations, t - BAN_WINDOW);
    CutIsPart(r.state.violations, t - BAN_WINDOW);
    var ban := NewBan(r.state, t);
    if ban.Some? {
      AllCausesSnoc(r.bans, ban.value);
      assert multiset(left + [t]) == multiset(left) + multiset{t};
    }
  }

  lemma AllCausesSnoc(bans: seq<Ban>, b: Ban)
    ensures AllCauses(bans + [b]) == AllCauses(bans) + b.causes
  {
    assert (bans + [b])[..|bans + [b]| - 1] == bans;
  }

  lemma {:induction false} NoneCountsTwice(vs: seq<real>)
    ensures CountedOnce(RecordOf(vs), vs)
    decreases |vs|
  {
    if vs != [] {
      var before, t := vs[..|vs| - 1], vs[|vs| - 1];
      NoneCountsTwice(before);
      EnterCountsOnce(RecordOf(before), before, t);
      assert before + [t] == vs;
    }
  }

  // ---------------------------------------------------------------- five minutes

  // All causes lie inside the five minutes that end with the start.
  ghost predicate Prompt(b: Ban) {
    After(b.causes, b.start - 300.0)
  }

  ghost predicate AllPrompt(bans: seq<Ban>) {
    forall n :: 0 <= n < |bans| ==> Prompt(bans[n])
  }

  lemma {:induction false} CutOfSorted(ts: seq<real>, cutoff: real, hi: real)
    requires Sorted(ts) && UpTo(ts, hi)
    ensures Sorted(Cut(ts, cutoff)) && UpTo(Cut(ts, cutoff), hi) && After(Cut(ts, cutoff), cutoff)
    decreases |ts|
  {
    if ts != [] && ts[0] <= cutoff {
      CutOfSorted(ts[1..], cutoff, hi);
    }
  }

  ghost predicate PromptSoFar(r: Record, now: real) {
    Sorted(r.state.violations) && UpTo(r.state.violations, now) && AllPrompt(r.bans)
  }

  lemma EnterPrompt(r: Record, t: real)
    requires PromptSoFar(r, t)
    ensures PromptSoFar(Enter(r, t), t)
  {
    var left := Cut(r.state.violations, t - BAN_WINDOW);
    CutOfSorted(r.state.violations, t - BAN_WINDOW, t);
    SortedExtends(left, t);
    assert After(left + [t], t - BAN_WINDOW);
  }

  lemma {:induction false} SortedIsPrompt(vs: seq<real>, now: real)
    requires Sorted(vs) && UpTo(vs, now)
    ensures PromptSoFar(RecordOf(vs), now)
    decreases |vs|
  {
    if vs != [] {
      var before, t := vs[..|vs| - 1], vs[|vs| - 1];
      SortedSplits(vs);
      SortedIsPrompt(before, t);
      EnterPrompt(RecordOf(before), t);
      assert t <= now;
    }
  }

  // Two violations whose times are swapped, and a third that has forgotten neither.
  function OldCause(e: real): seq<real> {
    [300.0] + [300.0 - e] + [600.0 - e / 2.0]
  }

  lemma RecordSnoc(vs: seq<real>, t: real)
    ensures RecordOf(vs + [t]) == Enter(RecordOf(vs), t)
  {
    assert (vs + [t])[..|vs + [t]| - 1] == vs;
  }

  // The swapped pair bans the key with a cause more than five minutes old.
  lemma OldCauseBans(e: real)
    requires 0.0 < e <= 1.0
    ensures NearlySorted(OldCause(e), e)
    ensures BansOf(OldCause(e)) == [Ban(600.0 - e / 2.0, 300.0, [300.0, 300.0 - e, 600.0 - e / 2.0])]
    ensures !AllPrompt(BansOf(OldCause(e)))
  {
    var one, two := [300.0], [300.0] + [300.0 - e];
    RecordSnoc([], 300.0);
    assert [] + [300.0] == one;
    assert RecordOf(one) == Record(BanState([300.0], 0.0, 0), []);
    RecordSnoc(one, 300.0 - e);
    assert Cut([300.0], 300.0 - e - BAN_WINDOW) == [300.0];
    assert RecordOf(two) == Record(BanState([300.0, 300.0 - e], 0.0, 0), []);
    RecordSnoc(two, 600.0 - e / 2.0);
    var t := 600.0 - e / 2.0;
    assert Cut([300.0, 300.0 - e], t - BAN_WINDOW) == [300.0, 300.0 - e];
    assert [300.0, 300.0 - e] + [t] == [300.0, 300.0 - e, t];
    assert NewBan(RecordOf(two).state, t) == Some(Ban(t, 300.0, [300.0, 300.0 - e, t]));
    assert BansOf(OldCause(e))[0].causes[1] == 300.0 - e;
  }

  lemma LagOfZeroSorts(vs: seq<real>)
    requires NearlySorted(vs, 0.0)
    ensures Sorted(vs) && (vs != [] ==> UpTo(vs, vs[|vs| - 1]))
  {
    forall i, j | 0 <= i < j < |vs| ensures vs[i] <= vs[j] {
      assert vs[i] - 0.0 <= vs[j];
    }
  }

  lemma LagGrows(vs: seq<real>, e: real, lag: real)
    requires NearlySorted(vs, e) && e <= lag
    ensures NearlySorted(vs, lag)
  {
    forall i, j | 0 <= i < j < |vs| ensures vs[i] - lag <= vs[j] {
      assert vs[i] - e <= vs[j];
    }
  }

  function Small(lag: real): real {
    if lag < 1.0 then lag else 1.0
  }

  // For violations that step back by at most `lag`, three violations within five minutes are
  // behind every ban exactly when none steps back.
  lemma FiveMinutesExactly(lag: real)
    requires lag >= 0.0
    ensures (forall vs :: NearlySorted(vs, lag) ==> AllPrompt(BansOf(vs))) <==> lag == 0.0
  {
    if lag == 0.0 {
      forall vs | NearlySorted(vs, lag) ensures AllPrompt(BansOf(vs)) {
        LagOfZeroSorts(vs);
        SortedIsPrompt(vs, if vs == [] then 0.0 else vs[|vs| - 1]);
      }
    } else {
      OldCauseBans(Small(lag));
      LagGrows(OldCause(Small(lag)), Small(lag), lag);
    }
  }

  // ---------------------------------------------------------------- the ledger

  // The definition: every ban so far, and every violation recorded since the last one ended.
  // The third of those to fall within five minutes starts a ban.
  datatype Ledger = Ledger(bans: seq<Ban>, since: seq<real>)

  function Note(ledger: Ledger, t: real): Ledger {
    var causes := Recent(ledger.since + [t], t - BAN_WINDOW);
    if Deadline(ledger.bans) > t then ledger
    else if |causes| < BAN_THRESHOLD then ledger.(since := ledger.since + [t])
    else Ledger(ledger.bans + [Ban(t, Duration(|ledger.bans|), causes)], [])
  }

  function LedgerOf(vs: seq<real>): Ledger {
    if vs == [] then Ledger([], []) else Note(LedgerOf(vs[..|vs| - 1]), vs[|vs| - 1])
  }

  // The code's bans are the ledger's, and its deque is what is left of the violations since the
  // last one.
  ghost predicate Refines(r: Record, ledger: Ledger) {
    && r.bans == ledger.bans
    && r.state.violations ==
       if ledger.since == [] then [] else Recent(ledger.since, ledger.since[|ledger.since| - 1] - BAN_WINDOW)
  }

  // What the code counts is what the ledger counts.
  lemma SameCauses(r: Record, ledger: Ledger, t: real)
    requires Refines(r, ledger) && Sorted(ledger.since) && UpTo(ledger.since, t)
    ensures Cut(r.state.violations, t - BAN_WINDOW) + [t] == Recent(ledger.since + [t], t - BAN_WINDOW)
  {
    var c := if ledger.since == [] then t - BAN_WINDOW else ledger.since[|ledger.since| - 1] - BAN_WINDOW;
    SortedIsOrdered(ledger.since, t);
    PopFinds(ledger.since, r.state.violations, c, t - BAN_WINDOW, t);
    RecentSnoc(ledger.since, t, t - BAN_WINDOW);
  }

  lemma EnterRefines(r: Record, ledger: Ledger, t: real)
    requires RecordSound(r) && Refines(r, ledger) && Sorted(ledger.since) && UpTo(ledger.since, t)
    ensures Refines(Enter(r, t), Note(ledger, t))
    ensures Sorted(Note(ledger, t).since) && UpTo(Note(ledger, t).since, t)
  {
    SameCauses(r, ledger, t);
    SortedExtends(ledger.since, t);
    assert (ledger.since + [t])[|ledger.since + [t]| - 1] == t;
  }

  lemma {:induction false} SortedRefines(vs: seq<real>, now: real)
    requires Sorted(vs) && UpTo(vs, now)
    ensures Refines(RecordOf(vs), LedgerOf(vs)) && Sorted(LedgerOf(vs).since) && UpTo(LedgerOf(vs).since, now)
    decreases |vs|
  {
    if vs != [] {
      var before, t := vs[..|vs| - 1], vs[|vs| - 1];
      SortedSplits(vs);
      SortedRefines(before, t);
      HistorySound(before);
      EnterRefines(RecordOf(before), LedgerOf(before), t);
    }
  }

  lemma LedgerSnoc(vs: seq<real>, t: real)
    ensures LedgerOf(vs + [t]) == Note(LedgerOf(vs), t)
  {
    assert (vs + [t])[..|vs + [t]| - 1] == vs;
  }

  // The definition sees two violations in the window, where the code counts three.
  lemma OldCauseIsNotCounted(e: real)
    requires 0.0 < e <= 1.0
    ensures LedgerOf(OldCause(e)).bans == []
  {
    var one, two := [300.0], [300.0] + [300.0 - e];
    var t := 600.0 - e / 2.0;
    LedgerSnoc([], 300.0);
    assert [] + [300.0] == one;
    RecentIsShort(one, 300.0 - BAN_WINDOW);
    assert LedgerOf(one) == Ledger([], one);
    LedgerSnoc(one, 300.0 - e);
    RecentIsShort(two, 300.0 - e - BAN_WINDOW);
    assert LedgerOf(two) == Ledger([], two);
    LedgerSnoc(two, t);
    RecentSnoc(two, t, t - BAN_WINDOW);
    RecentSnoc(one, 300.0 - e, t - BAN_WINDOW);
    RecentIsShort(one, t - BAN_WINDOW);
  }

  lemma {:induction false} RecentIsShort(ts: seq<real>, cutoff: real)
    ensures |Recent(ts, cutoff)| <= |ts|
    decreases |ts|
  {
    if ts != [] {
      RecentIsShort(ts[..|ts| - 1], cutoff);
    }
  }

  // For violations that step back by at most `lag`, the code's state is the ledger's exactly
  // when none steps back.
  lemma StateRefinesLedger(lag: real)
    requires lag >= 0.0
    ensures (forall vs :: NearlySorted(vs, lag) ==> Refines(RecordOf(vs), LedgerOf(vs))) <==> lag == 0.0
  {
    if lag == 0.0 {
      forall vs | NearlySorted(vs, lag) ensures Refines(RecordOf(vs), LedgerOf(vs)) {
        LagOfZeroSorts(vs);
        SortedRefines(vs, if vs == [] then 0.0 else vs[|vs| - 1]);
      }
    } else {
      OldCauseBans(Small(lag));
      OldCauseIsNotCounted(Small(lag));
      LagGrows(OldCause(Small(lag)), Small(lag), lag);
    }
  }

  // ---------------------------------------------------------------- the gate

  predicate Covers(b: Ban, t: real) {
    b.start <= t < End(b)
  }

  // No two bans run at one moment; and the running one is the last exactly when no later ban has
  // been imposed by a thread with a newer time.
  lemma RunningBanIsLast(vs: seq<real>, now: real, n: nat)
    requires n < |BansOf(vs)| && Covers(BansOf(vs)[n], now)
    ensures forall m: nat :: m < |BansOf(vs)| && Covers(BansOf(vs)[m], now) ==> m == n
    ensures n == |BansOf(vs)| - 1 <==> BansOf(vs)[|BansOf(vs)| - 1].start <= now
  {
    var bans := BansOf(vs);
    forall m: nat | m < |bans| && Covers(bans[m], now)
      ensures m == n
    {
      if m < n {
        LadderHolds(vs, m, n);
      } else if n < m {
        LadderHolds(vs, n, m);
      }
    }
    if n < |bans| - 1 {
      LadderHolds(vs, n, |bans| - 1);
    }
  }

  // The gate in front of every request.
  predicate Shut(vs: seq<real>, now: real) {
    vs != [] && StateAfter(vs).bannedUntil > now
  }

  ghost predicate SomeBanRuns(vs: seq<real>, now: real) {
    exists n :: 0 <= n < |BansOf(vs)| && Covers(BansOf(vs)[n], now)
  }

  // At any times the gate is shut until the end of every ban there was, and open after it; a
  // clock below zero would find it shut for a key without a ban.
  lemma ShutUntilTheLastEnd(vs: seq<real>, now: real)
    ensures Shut(vs, now) <==>
              || (exists n :: 0 <= n < |BansOf(vs)| && now < End(BansOf(vs)[n]))
              || (vs != [] && BansOf(vs) == [] && now < 0.0)
  {
    RecordsTheState(vs);
    HistorySound(vs);
    var bans := BansOf(vs);
    var last := |bans| - 1;
    if bans != [] {
      assert BanSound(bans, last);
      forall n | 0 <= n < last && now < End(bans[n])
        ensures now < End(bans[last])
      {
        LadderHolds(vs, n, last);
      }
    }
  }

  // A reading of the clock that lags behind no violation by more than `lag`.
  ghost predicate ReadAfter(vs: seq<real>, now: real, lag: real) {
    now >= 0.0 && UpTo(vs, now + lag)
  }

  lemma {:induction false} StartsAreViolations(vs: seq<real>, hi: real)
    requires UpTo(vs, hi)
    ensures forall n :: 0 <= n < |BansOf(vs)| ==> BansOf(vs)[n].start <= hi
    decreases |vs|
  {
    if vs != [] {
      var before, t := vs[..|vs| - 1], vs[|vs| - 1];
      StartsAreViolations(before, hi);
      assert RecordOf(vs) == Enter(RecordOf(before), t);
      forall n | 0 <= n < |BansOf(vs)| ensures BansOf(vs)[n].start <= hi {
        assert n < |BansOf(before)| ==> BansOf(vs)[n] == BansOf(before)[n];
        assert t == vs[|vs| - 1] && t <= hi;
      }
    }
  }

  const AT_ONCE: seq<real> := [1.0, 1.0, 1.0]

  lemma ThreeAtOnce()
    ensures BansOf(AT_ONCE) == [Ban(1.0, 300.0, AT_ONCE)]
  {
    var one, two := [1.0], [1.0, 1.0];
    RecordSnoc([], 1.0);
    assert [] + [1.0] == one && one + [1.0] == two && two + [1.0] == AT_ONCE;
    assert RecordOf(one) == Record(BanState([1.0], 0.0, 0), []);
    RecordSnoc(one, 1.0);
    assert Cut(one, 1.0 - BAN_WINDOW) == one;
    assert RecordOf(two) == Record(BanState(two, 0.0, 0), []);
    RecordSnoc(two, 1.0);
    assert Cut(two, 1.0 - BAN_WINDOW) == two;
    assert NewBan(RecordOf(two).state, 1.0) == Some(Ban(1.0, 300.0, AT_ONCE));
  }

  // Three violations at one moment, and a request that read the clock just before them.
  lemma EarlyReaderIsShutOut(e: real)
    requires 0.0 < e <= 1.0
    ensures ReadAfter(AT_ONCE, 1.0 - e, e) && Shut(AT_ONCE, 1.0 - e) && !SomeBanRuns(AT_ONCE, 1.0 - e)
  {
    ThreeAtOnce();
    ShutUntilTheLastEnd(AT_ONCE, 1.0 - e);
    assert End(BansOf(AT_ONCE)[0]) == 301.0;
  }

  // For readings that lag behind the violations by at most `lag`, the gate is shut exactly
  // while some ban runs if and only if none lags.
  lemma ShutExactlyDuringBans(lag: real)
    requires lag >= 0.0
    ensures (forall vs, now :: ReadAfter(vs, now, lag) ==> (Shut(vs, now) <==> SomeBanRuns(vs, now))) <==> lag == 0.0
  {
    if lag == 0.0 {
      forall vs, now | ReadAfter(vs, now, lag) ensures Shut(vs, now) <==> SomeBanRuns(vs, now) {
        ShutUntilTheLastEnd(vs, now);
        StartsAreViolations(vs, now);
      }
    } else {
      var e := Small(lag);
      EarlyReaderIsShutOut(e);
      assert ReadAfter(AT_ONCE, 1.0 - e, lag);
    }
  }

  // ---------------------------------------------------------------- ban keys

  predicate StartsWith(s: string, prefix: string) {
    prefix <= s
  }

  // The text after the first occurrence of the marker, if it occurs.
  function TextAfter(s: string, marker: string): Option<string> {
    if StartsWith(s, marker) then Some(s[|marker|..])
    else if s == [] then None
    else TextAfter(s[1..], marker)
  }

  predicate ForExtract(key: string) {
    StartsWith(key, "extract-ip:") || StartsWith(key, "extract-user:") || StartsWith(key, "extract-user-day:")
  }

  function BanKey(key: string): string {
    if ForExtract(key) then key
    else if TextAfter(key, "-ip:").Some? then "ip:" + TextAfter(key, "-ip:").value
    else if TextAfter(key, "ip:").Some? then "ip:" + TextAfter(key, "ip:").value
    else if TextAfter(key, "-user:").Some? then "user:" + TextAfter(key, "-user:").value
    else if TextAfter(key, "user:").Some? then "user:" + TextAfter(key, "user:").value
    else "key:" + key
  }

  predicate OccursAt(s: string, marker: string, i: nat) {
    i + |marker| <= |s| && s[i..i + |marker|] == marker
  }

  lemma OccursShift(s: string, marker: string, k: nat)
    requires s != []
    ensures OccursAt(s[1..], marker, k) <==> OccursAt(s, marker, k + 1)
  {
    if k + 1 + |marker| <= |s| {
      assert s[k + 1..k + 1 + |marker|] == s[1..][k..k + |marker|];
    }
  }

  lemma {:induction false} TextAfterFirst(s: string, marker: string, i: nat)
    requires OccursAt(s, marker, i) && forall k: nat :: k < i ==> !OccursAt(s, marker, k)
    ensures TextAfter(s, marker) == Some(s[i + |marker|..])
    decreases i
  {
    if i == 0 {
      assert s[..|marker|] == marker;
    } else {
      assert !OccursAt(s, marker, 0);
      OccursShift(s, marker, i - 1);
      forall k: nat | k < i - 1
        ensures !OccursAt(s[1..], marker, k)
      {
        OccursShift(s, marker, k);
      }
      TextAfterFirst(s[1..], marker, i - 1);
      assert s[1..][i - 1 + |marker|..] == s[i + |marker|..];
    }
  }

  lemma {:induction false} TextAfterNone(s: string, marker: string)
    requires marker != [] && forall k: nat :: !OccursAt(s, marker, k)
    ensures TextAfter(s, marker) == None
    decreases |s|
  {
    assert !OccursAt(s, marker, 0);
    if s != [] {
      forall k: nat
        ensures !OccursAt(s[1..], marker, k)
      {
        OccursShift(s, marker, k);
      }
      TextAfterNone(s[1..], marker);
    }
  }

  // A violation under a key that ends in an address lands on the key that every request from
  // that address asks about, whatever scope stands before it; the extract scopes excepted.
  lemma AddressesMeetTheGate(scope: string, x: string)
    requires var key := scope + "-ip:" + x;
             !ForExtract(key) && forall k: nat :: k < |scope| ==> !OccursAt(key, "-ip:", k)
    requires forall k: nat :: !OccursAt("ip:" + x, "-ip:", k)
    ensures BanKey(scope + "-ip:" + x) == BanKey("ip:" + x) == "ip:" + x
  {
    var key := scope + "-ip:" + x;
    assert key[|scope|..|scope| + 4] == "-ip:" && key[|scope| + 4..] == x;
    TextAfterFirst(key, "-ip:", |scope|);
    TextAfterNone("ip:" + x, "-ip:");
    assert ("ip:" + x)[0..3] == "ip:" && ("ip:" + x)[3..] == x;
    TextAfterFirst("ip:" + x, "ip:", 0);
  }

  // And under a key that ends in a user, on the key that every request of that user asks about.
  lemma UsersMeetTheGate(scope: string, x: string)
    requires var key := scope + "-user:" + x;
             && !ForExtract(key) && (forall k: nat :: !OccursAt(key, "-ip:", k) && !OccursAt(key, "ip:", k))
             && (forall k: nat :: k < |scope| ==> !OccursAt(key, "-user:", k))
    requires var plain := "user:" + x;
             forall k: nat :: !OccursAt(plain, "-ip:", k) && !OccursAt(plain, "ip:", k) && !OccursAt(plain, "-user:", k)
    ensures BanKey(scope + "-user:" + x) == BanKey("user:" + x) == "user:" + x
  {
    var key, plain := scope + "-user:" + x, "user:" + x;
    TextAfterNone(key, "-ip:");
    TextAfterNone(key, "ip:");
    assert key[|scope|..|scope| + 6] == "-user:" && key[|scope| + 6..] == x;
    TextAfterFirst(key, "-user:", |scope|);
    TextAfterNone(plain, "-ip:");
    TextAfterNone(plain, "ip:");
    TextAfterNone(plain, "-user:");
    assert plain[0..5] == "user:" && plain[5..] == x;
    TextAfterFirst(plain, "user:", 0);
  }

  // A ban of an extract key never shuts what the middleware asks about, the plain address and
  // the plain user: an import burst cannot block library reads.
  lemma ExtractBansStayScoped(key: string, x: string)
    requires ForExtract(key)
    ensures BanKey(key) == key
    ensures BanKey(key) != BanKey("ip:" + x) && BanKey(key) != BanKey("user:" + x)
  {
    assert key[0] == 'e' && ("ip:" + x)[0] == 'i' && ("user:" + x)[0] == 'u';
    PlainKeys("ip:" + x);
    PlainKeys("user:" + x);
  }

  lemma PlainKeys(key: string)
    requires !ForExtract(key)
    ensures var k := BanKey(key); k != [] && (k[0] == 'i' || k[0] == 'u' || k[0] == 'k')
  {
  }

  // ---------------------------------------------------------------- the functions of the source

  // The whole seconds left of a running ban, at least one.
  function RetryAfter(st: BanState, now: real): (seconds: int)
    requires st.bannedUntil > now
    ensures seconds >= 1
    ensures st.bannedUntil - now >= 1.0 ==> seconds as real <= st.bannedUntil - now < seconds as real + 1.0
  {
    var left := (st.bannedUntil - now).Floor;
    if left > 1 then left else 1
  }

  class BanTable {
    var states: map<string, BanState>
    // Every violation of every ban key so far.
    ghost var history: map<string, seq<real>>

    ghost predicate Valid()
      reads this
    {
      states.Keys == history.Keys && forall k :: k in states ==> states[k] == StateAfter(history[k])
    }

    ghost function HistoryOf(key: string): seq<real>
      reads this
    {
      if key in history then history[key] else []
    }

    constructor ()
      ensures Valid() && history == map[]
    {
      states, history := map[], map[];
    }

    // How long the caller is asked to wait, if banned.
    method RaiseIfBanned(key: string, now: real) returns (retryAfter: Option<int>)
      requires Valid()
      ensures retryAfter.Some? <==> BanKey(key) in history && StateAfter(history[BanKey(key)]).bannedUntil > now
      ensures retryAfter.Some? ==> retryAfter.value == RetryAfter(StateAfter(history[BanKey(key)]), now)
    {
      var banKey := BanKey(key);
      if banKey !in states || states[banKey].bannedUntil <= now {
        return None;
      }
      return Some(RetryAfter(states[banKey], now));
    }

    // The body of record_rate_limit_violation on the state of one key.
    static method Strike(st: BanState, now: real) returns (next: BanState, seconds: Option<int>)
      ensures next == Violate(st, now)
      ensures seconds.Some? <==> next.bannedUntil > now
      ensures seconds.Some? ==>
                if st.bannedUntil > now then seconds.value == RetryAfter(st, now)
                else seconds.value as real == Duration(st.level)
    {
      if st.bannedUntil > now {
        return st, Some(RetryAfter(st, now));
      }
      var violations := SlidingWindowLimiter.PopOld(st.violations, now - BAN_WINDOW);
      violations := violations + [now];
      if |violations| < BAN_THRESHOLD {
        return st.(violations := violations), None;
      }
      var duration := Duration(st.level);
      return BanState([], now + duration, st.level + 1), Some(duration.Floor);
    }

    // Some(seconds) if the key is banned, None while it is only being watched.
    method RecordViolation(key: string, now: real) returns (seconds: Option<int>)
      requires Valid()
      modifies this
      ensures Valid()
      ensures history == old(history)[BanKey(key) := old(HistoryOf(BanKey(key))) + [now]]
      ensures seconds.Some? <==> StateAfter(HistoryOf(BanKey(key))).bannedUntil > now
      ensures var before := StateAfter(old(HistoryOf(BanKey(key))));
              seconds.Some? ==>
                if before.bannedUntil > now then seconds.value == RetryAfter(before, now)
                else seconds.value as real == Duration(before.level)
    {
      var banKey := BanKey(key);
      ghost var past := HistoryOf(banKey);
      assert (past + [now])[..|past + [now]| - 1] == past;
      var st := if banKey in states then states[banKey] else UNBANNED;
      st, seconds := Strike(st, now);
      states, history := states[banKey := st], history[banKey := past + [now]];
    }
  }
}
