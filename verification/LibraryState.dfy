/**
 One revisioned library snapshot per account, written by compare-and-set with a bounded
 history, and the deletion of the account racing with those writes under the profile's row
 lock. A deletion is a transaction of several statements: what it did is visible to others
 only when it commits, and a write that finds the row locked waits (does nothing yet).
 */
module LibraryState {
  import opened Arithmetic
  import opened Options

  type UserId = string
  type Snapshot = string
  type Time = int

  datatype Version = Version(revision: int, snapshot: Snapshot, updatedAt: Time)

  datatype Row = Row(revision: int, snapshot: Snapshot, history: seq<Version>, updatedAt: Time)

  // How far a deletion has come: the profile row is closed (and locked); the library row was
  // deleted, if the statement saw one.
  datatype Deletion = ProfileClosed | LibraryDeleted(sawRow: bool)

  // History, no column: an accepted write and the revision its writer had named.
  datatype Write = Write(expected: int, snapshot: Snapshot, at: Time)

  datatype State = State(
    now: Time,
    closed: map<UserId, bool>,
    library: map<UserId, Row>,
    deletions: map<UserId, Deletion>,
    accepted: map<UserId, seq<Write>>)

  const EMPTY_SNAPSHOT: Snapshot := "{}"

  // ---------------------------------------------------------------- statements

  // What a reader gets: without a row, revision 0 of an empty snapshot.
  function Get(s: State, user: UserId): Row {
    if user in s.library then s.library[user] else Row(0, EMPTY_SNAPSHOT, [], 0)
  }

  // The history after an update: the row as it was is appended, and of the array only the
  // elements with ordinal above greatest(length before - 2, 0) are kept.
  function NextHistory(row: Row): seq<Version> {
    var all := row.history + [Version(row.revision, row.snapshot, row.updatedAt)];
    all[if |row.history| > 2 then |row.history| - 2 else 0..]
  }

  // The profile row is there and open, but a deletion in progress holds its lock.
  predicate MustWait(s: State, user: UserId) {
    user in s.closed && !s.closed[user] && user in s.deletions
  }

  // The profile row is there, open, and not locked by somebody else.
  predicate ProfileAvailable(s: State, user: UserId) {
    user in s.closed && !s.closed[user] && user !in s.deletions
  }

  // The row the statement returns, if any.
  function Saved(s: State, user: UserId, expected: int, snapshot: Snapshot): Option<Row> {
    if !ProfileAvailable(s, user) then None
    else if expected == 0 then
      if user in s.library then None else Some(Row(1, snapshot, [], s.now))
    else if user in s.library && s.library[user].revision == expected then
      Some(Row(s.library[user].revision + 1, snapshot, NextHistory(s.library[user]), s.now))
    else None
  }

  // What a save comes to: a row, a refusal, or no answer before the lock is free.
  datatype Answer = Accepted(row: Row) | Refused | Waits

  function AnswerTo(s: State, user: UserId, expected: int, snapshot: Snapshot): Answer {
    var row := Saved(s, user, expected, snapshot);
    if MustWait(s, user) then Waits else if row.Some? then Accepted(row.value) else Refused
  }

  function Save(s: State, user: UserId, expected: int, snapshot: Snapshot): State {
    var row := Saved(s, user, expected, snapshot);
    if row.None? then s
    else
      var before := if expected == 0 || user !in s.accepted then [] else s.accepted[user];
      s.(library := s.library[user := row.value],
         accepted := s.accepted[user := before + [Write(expected, snapshot, s.now)]])
  }

  // Creates or reactivates the profile; waits for a deletion in progress.
  function SignIn(s: State, user: UserId): State {
    if user in s.deletions then s else s.(closed := s.closed[user := false])
  }

  function BeginDeletion(s: State, user: UserId): State {
    if user in s.deletions || user !in s.closed then s
    else s.(deletions := s.deletions[user := ProfileClosed])
  }

  function DeleteLibraryRow(s: State, user: UserId): State {
    if user in s.deletions then s.(deletions := s.deletions[user := LibraryDeleted(user in s.library)]) else s
  }

  function Commit(s: State, user: UserId): State {
    if user in s.deletions && s.deletions[user].LibraryDeleted? then
      s.(closed := s.closed[user := true],
         library := if s.deletions[user].sawRow then s.library - {user} else s.library,
         deletions := s.deletions - {user})
    else s
  }

  function Rollback(s: State, user: UserId): State {
    s.(deletions := s.deletions - {user})
  }

  // ---------------------------------------------------------------- runs

  datatype Action =
    | DoTick(dt: nat)
    | DoSignIn(user: UserId)
    | DoSave(user: UserId, expected: int, snapshot: Snapshot)
    | DoBegin(user: UserId)
    | DoDeleteRow(user: UserId)
    | DoCommit(user: UserId)
    | DoRollback(user: UserId)

  function Apply(s: State, a: Action): State {
    match a
    case DoTick(dt) => s.(now := s.now + dt)
    case DoSignIn(u) => SignIn(s, u)
    case DoSave(u, expected, snapshot) => Save(s, u, expected, snapshot)
    case DoBegin(u) => BeginDeletion(s, u)
    case DoDeleteRow(u) => DeleteLibraryRow(s, u)
    case DoCommit(u) => Commit(s, u)
    case DoRollback(u) => Rollback(s, u)
  }

  function Exec(s: State, acts: seq<Action>): State
    decreases |acts|
  {
    if acts == [] then s else Exec(Apply(s, acts[0]), acts[1..])
  }

  lemma {:induction false} ExecAppend(s: State, a: seq<Action>, b: seq<Action>)
    ensures Exec(s, a + b) == Exec(Exec(s, a), b)
    decreases |a|
  {
    if a == [] {
      assert a + b == b;
    } else {
      assert (a + b)[0] == a[0] && (a + b)[1..] == a[1..] + b;
      ExecAppend(Apply(s, a[0]), a[1..], b);
    }
  }

  function Initial(now: Time): State {
    State(now, map[], map[], map[], map[])
  }

  // ---------------------------------------------------------------- what the row is

  // The row that a chain of accepted writes amounts to: as many revisions as writes, the last
  // snapshot, and the last three superseded ones in order, each with its own revision.
  function RowOf(ws: seq<Write>): Row
    requires ws != []
  {
    var n := |ws|;
    var kept := Min(3, n - 1);
    Row(n, ws[n - 1].snapshot,
        seq(kept, i requires 0 <= i < kept =>
              Version(n - kept + i, ws[n - 1 - kept + i].snapshot, ws[n - 1 - kept + i].at)),
        ws[n - 1].at)
  }

  // The first writer named revision 0, and every later one exactly the revision before its own.
  predicate Chained(ws: seq<Write>) {
    forall i :: 0 <= i < |ws| ==> ws[i].expected == i
  }

  ghost predicate HistoryExact(s: State) {
    forall u :: u in s.library ==>
      && u in s.accepted && s.accepted[u] != []
      && Chained(s.accepted[u])
      && s.library[u] == RowOf(s.accepted[u])
  }

  // A closed account owns no library row; and while a deletion has deleted the row, the row it
  // saw is the row there is.
  ghost predicate ClosedOwnNothing(s: State) {
    && (forall u :: u in s.library ==> u in s.closed && !s.closed[u])
    && (forall u :: u in s.deletions && s.deletions[u].LibraryDeleted? ==> (s.deletions[u].sawRow <==> u in s.library))
  }

  ghost predicate Inv(s: State) {
    HistoryExact(s) && ClosedOwnNothing(s)
  }

  lemma RowOfNext(ws: seq<Write>, w: Write)
    requires ws != []
    ensures RowOf(ws + [w]) == Row(|ws| + 1, w.snapshot, NextHistory(RowOf(ws)), w.at)
  {
    var row := RowOf(ws);
    var next := RowOf(ws + [w]);
    assert |next.history| == |NextHistory(row)|;
    forall i | 0 <= i < |next.history|
      ensures next.history[i] == NextHistory(row)[i]
    {
    }
    assert next.history == NextHistory(row);
  }

  lemma SaveKeepsInv(s: State, user: UserId, expected: int, snapshot: Snapshot)
    requires Inv(s)
    ensures Inv(Save(s, user, expected, snapshot))
  {
    var t := Save(s, user, expected, snapshot);
    if Saved(s, user, expected, snapshot).Some? {
      if expected != 0 {
        RowOfNext(s.accepted[user], Write(expected, snapshot, s.now));
      }
      assert t.library[user] == RowOf(t.accepted[user]);
      assert forall u :: u in t.library && u != user ==> t.library[u] == s.library[u] && t.accepted[u] == s.accepted[u];
    }
  }

  lemma ApplyKeepsInv(s: State, a: Action)
    requires Inv(s)
    ensures Inv(Apply(s, a))
  {
    if a.DoSave? {
      SaveKeepsInv(s, a.user, a.expected, a.snapshot);
    }
  }

  // On every run, with every deletion interleaved statement by statement with saves and with
  // reactivations: the row is exactly what its accepted writes amount to, they form a chain,
  // and no closed account owns a row.
  lemma {:induction false} RunKeepsInv(s: State, acts: seq<Action>)
    requires Inv(s)
    ensures Inv(Exec(s, acts))
    decreases |acts|
  {
    if acts != [] {
      ApplyKeepsInv(s, acts[0]);
      RunKeepsInv(Apply(s, acts[0]), acts[1..]);
    }
  }

  // The row in the words of the migration: revision, length and content of the history.
  lemma HistoryIsTheLastThree(now: Time, acts: seq<Action>, u: UserId)
    requires u in Exec(Initial(now), acts).library
    ensures u in Exec(Initial(now), acts).accepted
    ensures var row, ws := Exec(Initial(now), acts).library[u], Exec(Initial(now), acts).accepted[u];
            var oldest := row.revision - |row.history|;
            && row.revision == |ws| && |row.history| == Min(3, row.revision - 1)
            && Chained(ws)
            && row.snapshot == ws[|ws| - 1].snapshot
            && (forall i :: 0 <= i < |row.history| ==>
                  row.history[i] == Version(oldest + i, ws[oldest + i - 1].snapshot, ws[oldest + i - 1].at))
  {
    assert Inv(Initial(now));
    RunKeepsInv(Initial(now), acts);
  }

  // This run never commits a deletion of u.
  predicate Undeleted(acts: seq<Action>, u: UserId) {
    forall a :: a in acts ==> a != DoCommit(u)
  }

  lemma StepGrows(s: State, a: Action, u: UserId)
    requires Inv(s) && u in s.library && a != DoCommit(u)
    ensures var t := Apply(s, a);
            && u in t.library && t.library[u].revision >= s.library[u].revision
            && u in s.accepted && u in t.accepted && s.accepted[u] <= t.accepted[u]
  {
    ApplyKeepsInv(s, a);
  }

  lemma {:induction false} RevisionOnlyGrows(s: State, acts: seq<Action>, u: UserId)
    requires Inv(s) && u in s.library && Undeleted(acts, u)
    ensures u in Exec(s, acts).library && Exec(s, acts).library[u].revision >= s.library[u].revision
    ensures u in s.accepted && u in Exec(s, acts).accepted && s.accepted[u] <= Exec(s, acts).accepted[u]
    decreases |acts|
  {
    if acts != [] {
      assert acts[0] in acts && forall a :: a in acts[1..] ==> a in acts;
      ApplyKeepsInv(s, acts[0]);
      StepGrows(s, acts[0], u);
      RevisionOnlyGrows(Apply(s, acts[0]), acts[1..], u);
    }
  }

  // No lost update: once a save naming some revision was accepted, every later save naming the
  // same revision is refused, until the account is deleted; and what was accepted stays in the
  // chain.
  lemma StaleWriterIsRefused(now: Time, acts: seq<Action>, u: UserId, expected: int, mine: Snapshot,
                             more: seq<Action>, theirs: Snapshot)
    requires Saved(Exec(Initial(now), acts), u, expected, mine).Some? && Undeleted(more, u)
    ensures var s := Exec(Save(Exec(Initial(now), acts), u, expected, mine), more);
            && Saved(s, u, expected, theirs).None?
            && u in s.accepted && 0 <= expected < |s.accepted[u]| && s.accepted[u][expected].snapshot == mine
  {
    RunKeepsInv(Initial(now), acts);
    var s0 := Exec(Initial(now), acts);
    SaveKeepsInv(s0, u, expected, mine);
    var s1 := Save(s0, u, expected, mine);
    RevisionOnlyGrows(s1, more, u);
    RunKeepsInv(s1, more);
    assert s1.accepted[u][|s1.accepted[u]| - 1] == Write(expected, mine, s0.now);
    assert Exec(s1, more).accepted[u][expected] == s1.accepted[u][expected];
  }

  // A committed deletion leaves neither a row nor an open profile, whatever ran meanwhile.
  lemma DeletionCommits(now: Time, acts: seq<Action>, u: UserId)
    requires var s := Exec(Initial(now), acts); u in s.deletions && s.deletions[u].LibraryDeleted?
    ensures var t := Commit(Exec(Initial(now), acts), u); t.closed[u] && u !in t.library
  {
    RunKeepsInv(Initial(now), acts);
  }

  // A save, column by column: accepted exactly if the profile is there, open and not being
  // deleted and the revision named is the row's, 0 standing for no row; then the row has the next
  // revision, the new snapshot and the present time, and nobody else's row changes.
  lemma SaveExactly(s: State, user: UserId, expected: int, snapshot: Snapshot, other: UserId)
    requires Inv(s)
    ensures var t := Save(s, user, expected, snapshot);
            var accepted := && user in s.closed && !s.closed[user] && user !in s.deletions
                            && expected == (if user in s.library then s.library[user].revision else 0);
            && (AnswerTo(s, user, expected, snapshot).Accepted? <==> accepted)
            && (accepted ==>
                  && user in t.library && AnswerTo(s, user, expected, snapshot).row == t.library[user]
                  && t.library[user].revision == expected + 1 && t.library[user].snapshot == snapshot
                  && t.library[user].updatedAt == s.now)
            && (!accepted ==> t == s)
            && (other != user ==>
                  && (other in t.library <==> other in s.library)
                  && (other in s.library ==> t.library[other] == s.library[other]))
            && t.closed == s.closed && t.deletions == s.deletions
  {
    assert user in s.library ==> s.library[user] == RowOf(s.accepted[user]);
  }

  // A sign-in opens a profile that was closed, unless its deletion is still running, and brings
  // nothing back: what the account may write next is a first revision.
  lemma SignInReopens(s: State, user: UserId, snapshot: Snapshot)
    requires Inv(s) && user in s.closed && s.closed[user] && user !in s.deletions
    ensures var t := SignIn(s, user);
            && user in t.closed && !t.closed[user] && t.library == s.library && user !in t.library
            && AnswerTo(s, user, 0, snapshot) == Refused
            && AnswerTo(t, user, 0, snapshot) == Accepted(Row(1, snapshot, [], s.now))
  {
  }

  // A save that waits for a deletion is decided by how the deletion ends: a commit refuses it,
  // a rollback leaves it to the revision it names.
  lemma WaitIsDecided(s: State, user: UserId, expected: int, snapshot: Snapshot)
    requires AnswerTo(s, user, expected, snapshot).Waits?
    ensures s.deletions[user].LibraryDeleted? ==> AnswerTo(Commit(s, user), user, expected, snapshot) == Refused
    ensures var undone := Rollback(s, user);
            AnswerTo(undone, user, expected, snapshot) ==
              if expected == Get(s, user).revision && (expected == 0 <==> user !in s.library)
              then Accepted(Row(expected + 1, snapshot,
                                if expected == 0 then [] else NextHistory(s.library[user]), s.now))
              else Refused
  {
  }

  // ---------------------------------------------------------------- the functions of the source

  class LibraryStore {
    var now: Time
    var closed: map<UserId, bool>
    var library: map<UserId, Row>
    var deletions: map<UserId, Deletion>
    ghost var accepted: map<UserId, seq<Write>>
    ghost var trace: seq<Action>
    ghost const start: Time

    ghost function Model(): State
      reads this
    {
      State(now, closed, library, deletions, accepted)
    }

    ghost predicate Valid()
      reads this
    {
      Model() == Exec(Initial(start), trace)
    }

    constructor (start: Time)
      ensures Valid() && trace == [] && Model() == Initial(start)
    {
      this.start := start;
      now, closed, library, deletions, accepted, trace := start, map[], map[], map[], map[], [];
    }

    ghost method Book(a: Action, before: State)
      requires before == Exec(Initial(start), trace) && Model() == Apply(before, a)
      modifies this`trace
      ensures Valid() && trace == old(trace) + [a]
    {
      ExecAppend(Initial(start), trace, [a]);
      trace := trace + [a];
    }

    // Others run any statements; a deletion in progress is moved on by its own transaction
    // only. The body stands for none; callers rely on the contract.
    method Interfere(user: UserId)
      requires Valid() && user in deletions
      modifies this
      ensures Valid() && old(trace) <= trace
      ensures user in deletions && deletions[user] == old(deletions[user])
    {
    }

    method GetUserLibraryState(user: UserId) returns (row: Row)
      requires Valid()
      ensures row == Get(Model(), user) && (row.revision == 0 <==> user !in library)
    {
      RunKeepsInv(Initial(start), trace);
      if user in library {
        row := library[user];
      } else {
        row := Row(0, EMPTY_SNAPSHOT, [], 0);
      }
    }

    // Decided at once, unless a deletion in progress holds the profile's lock.
    method SaveUserLibraryState(user: UserId, expected: int, snapshot: Snapshot) returns (answer: Answer)
      requires Valid()
      modifies this
      ensures Valid() && Model() == Save(old(Model()), user, expected, snapshot)
      ensures answer == AnswerTo(old(Model()), user, expected, snapshot)
    {
      ghost var before := Model();
      if user in closed && !closed[user] && user in deletions {
        Book(DoSave(user, expected, snapshot), before);
        return Waits;
      }
      var row: Option<Row> := None;
      if user in closed && !closed[user] {
        if expected == 0 {
          if user !in library {
            row := Some(Row(1, snapshot, [], now));
          }
        } else if user in library && library[user].revision == expected {
          var state := library[user];
          var versions := state.history + [Version(state.revision, state.snapshot, state.updatedAt)];
          var first := if |state.history| - 2 > 0 then |state.history| - 2 else 0;
          row := Some(Row(state.revision + 1, snapshot, versions[first..], now));
        }
      }
      if row.Some? {
        library := library[user := row.value];
        accepted := Save(before, user, expected, snapshot).accepted;
      }
      Book(DoSave(user, expected, snapshot), before);
      answer := if row.Some? then Accepted(row.value) else Refused;
    }

    // delete_account_data: close and lock the profile, delete the library row, commit; others
    // act between the statements.
    method DeleteAccountData(user: UserId)
      requires Valid() && user !in deletions
      modifies this
      ensures Valid() && old(trace) <= trace
      ensures user !in library && user !in deletions
      ensures user in old(closed) ==> user in closed && closed[user]
    {
      ghost var before := Model();
      if user !in closed {
        // No profile row: every statement affects nothing.
        RunKeepsInv(Initial(start), trace);
        return;
      }
      deletions := deletions[user := ProfileClosed];
      Book(DoBegin(user), before);
      Interfere(user);
      before := Model();
      deletions := deletions[user := LibraryDeleted(user in library)];
      Book(DoDeleteRow(user), before);
      Interfere(user);
      DeletionCommits(start, trace, user);
      before := Model();
      if deletions[user].sawRow {
        library := library - {user};
      }
      closed, deletions := closed[user := true], deletions - {user};
      Book(DoCommit(user), before);
    }
  }
}
