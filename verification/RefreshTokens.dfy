/**
 Refresh-token rotation with idempotent replay, and logout.

 A token is what its text determines: minted tokens are new random values, derived tokens
 are an injective function of the token they replace and of the request id (the source
 hashes both; the hash is taken to be injective, so rows are keyed by the token itself).
 */
module RefreshTokens {
  import opened Options

  type UserId = string
  type RequestId = string
  type Time = int  // microseconds

  const REPLAY_WINDOW: int := 900 * 1_000_000

  datatype Token = Minted(n: nat) | Derived(parent: Token, request: RequestId)

  // lineage is history, no column: the login from which the token descends.
  datatype Row = Row(
    user: UserId,
    expiresAt: Time,
    revokedAt: Option<Time>,
    request: Option<RequestId>,
    retryUntil: Option<Time>,
    rotatedTo: Option<Token>,
    lineage: nat)

  // `minted` counts the random tokens drawn so far; `rotations` is the history of the tokens
  // that were exchanged for a successor.
  datatype State = State(
    now: Time,
    minted: nat,
    open: set<UserId>,
    tokens: map<Token, Row>,
    rotations: seq<Token>)

  function Issued(user: UserId, expiresAt: Time, lineage: nat): Row {
    Row(user, expiresAt, None, None, None, None, lineage)
  }

  // ---------------------------------------------------------------- statements

  function Login(s: State, user: UserId, expiresAt: Time): State {
    s.(tokens := s.tokens[Minted(s.minted) := Issued(user, expiresAt, s.minted)], minted := s.minted + 1)
  }

  // The source row of a rotation: unrevoked, unexpired, of an open profile.
  predicate Rotatable(s: State, raw: Token) {
    && raw in s.tokens
    && s.tokens[raw].revokedAt.None?
    && s.tokens[raw].expiresAt > s.now
    && s.tokens[raw].user in s.open
  }

  function Successor(s: State, raw: Token, request: Option<RequestId>): Token {
    if request.Some? then Derived(raw, request.value) else Minted(s.minted)
  }

  // One statement: revoke the source, remember the request, issue the successor.
  function Rotate(s: State, raw: Token, request: Option<RequestId>, expiresAt: Time): State {
    if !Rotatable(s, raw) then s
    else
      var row := s.tokens[raw];
      var next := Successor(s, raw, request);
      var revoked := row.(revokedAt := Some(s.now),
                          request := request,
                          retryUntil := if request.Some? then Some(s.now + REPLAY_WINDOW) else None,
                          rotatedTo := if request.Some? then Some(next) else None);
      s.(tokens := s.tokens[raw := revoked][next := Issued(row.user, expiresAt, row.lineage)],
         minted := if request.Some? then s.minted else s.minted + 1,
         rotations := s.rotations + [raw])
  }

  // The second statement, tried when the first returned no row: it only reads.
  function Replay(s: State, raw: Token, request: Option<RequestId>): Option<Token> {
    if && request.Some? && raw in s.tokens
       && s.tokens[raw].revokedAt.Some?
       && s.tokens[raw].request == request
       && s.tokens[raw].retryUntil.Some? && s.tokens[raw].retryUntil.value > s.now
       && s.tokens[raw].user in s.open
       && s.tokens[raw].rotatedTo.Some? && s.tokens[raw].rotatedTo.value in s.tokens
       && s.tokens[s.tokens[raw].rotatedTo.value].revokedAt.None?
       && s.tokens[s.tokens[raw].rotatedTo.value].expiresAt > s.now
    then Some(Derived(raw, request.value))
    else None
  }

  function Revoked(row: Row, now: Time): Row {
    if row.revokedAt.None? then row.(revokedAt := Some(now)) else row
  }

  // The tokens a logout names: its own, and with a matching pending request the successor.
  predicate Named(s: State, raw: Token, request: Option<RequestId>, t: Token) {
    || t == raw
    || (request.Some? && raw in s.tokens && s.tokens[raw].request == request && s.tokens[raw].rotatedTo == Some(t))
  }

  function Logout(s: State, raw: Token, request: Option<RequestId>): State {
    s.(tokens := map t | t in s.tokens ::
         if Named(s, raw, request, t) then Revoked(s.tokens[t], s.now) else s.tokens[t])
  }

  function LogoutAll(s: State, user: UserId): State {
    s.(tokens := map t | t in s.tokens :: if s.tokens[t].user == user then Revoked(s.tokens[t], s.now) else s.tokens[t])
  }

  // ---------------------------------------------------------------- runs

  datatype Action =
    | DoTick(dt: nat)
    | DoOpen(user: UserId)
    | DoClose(user: UserId)  // account deletion: closes the profile and revokes its tokens
    | DoLogin(user: UserId, expiresAt: Time)
    | DoRotate(raw: Token, request: Option<RequestId>, expiresAt: Time)
    | DoLogout(raw: Token, request: Option<RequestId>)
    | DoLogoutAll(user: UserId)

  function Apply(s: State, a: Action): State {
    match a
    case DoTick(dt) => s.(now := s.now + dt)
    case DoOpen(u) => s.(open := s.open + {u})
    case DoClose(u) => LogoutAll(s, u).(open := s.open - {u})
    case DoLogin(u, exp) => Login(s, u, exp)
    case DoRotate(raw, request, exp) => Rotate(s, raw, request, exp)
    case DoLogout(raw, request) => Logout(s, raw, request)
    case DoLogoutAll(u) => LogoutAll(s, u)
  }

  function Exec(s: State, acts: seq<Action>): State
    decreases |acts|
  {
    if acts == [] then s else Exec(Apply(s, acts[0]), acts[1..])
  }

  function Initial(now: Time): State {
    State(now, 0, {}, map[], [])
  }

  // ---------------------------------------------------------------- the invariant

  predicate Live(s: State, t: Token) {
    t in s.tokens && s.tokens[t].revokedAt.None?
  }

  ghost predicate RowSound(s: State, t: Token)
    requires t in s.tokens
  {
    var row := s.tokens[t];
    && row.lineage < s.minted
    && (t.Minted? ==> t.n < s.minted)
    // A derived token's parent was rotated into it, under that request.
    && (t.Derived? ==>
          && t.parent in s.tokens
          && s.tokens[t.parent].request == Some(t.request)
          && s.tokens[t.parent].lineage == row.lineage)
    // A remembered request goes with a revoked row, a deadline and the derived successor.
    && (row.request.Some? ==>
          && row.revokedAt.Some? && row.retryUntil.Some?
          && row.rotatedTo == Some(Derived(t, row.request.value))
          && Derived(t, row.request.value) in s.tokens
          && s.tokens[Derived(t, row.request.value)].lineage == row.lineage)
    && (row.request.None? ==> row.rotatedTo.None? && row.retryUntil.None?)
  }

  ghost predicate OneLive(s: State) {
    forall t, v :: Live(s, t) && Live(s, v) && s.tokens[t].lineage == s.tokens[v].lineage ==> t == v
  }

  ghost predicate RotatedOnce(s: State) {
    && (forall i :: 0 <= i < |s.rotations| ==> s.rotations[i] in s.tokens && !Live(s, s.rotations[i]))
    && (forall i, j :: 0 <= i < j < |s.rotations| ==> s.rotations[i] != s.rotations[j])
  }

  ghost predicate Inv(s: State) {
    && (forall t {:trigger RowSound(s, t)} :: t in s.tokens ==> RowSound(s, t))
    && OneLive(s)
    && RotatedOnce(s)
  }

  // What no action undoes.
  ghost predicate Keeps(s: State, t: State) {
    && s.now <= t.now && s.minted <= t.minted
    && (forall k :: k in s.tokens ==>
          && k in t.tokens
          && t.tokens[k].lineage == s.tokens[k].lineage
          && t.tokens[k].user == s.tokens[k].user
          && t.tokens[k].expiresAt == s.tokens[k].expiresAt
          && (!Live(s, k) ==> t.tokens[k] == s.tokens[k]))
    // A new token of an old lineage needs a live one to come from.
    && (forall k :: k in t.tokens && k !in s.tokens && t.tokens[k].lineage < s.minted ==>
          exists v :: Live(s, v) && s.tokens[v].lineage == t.tokens[k].lineage)
  }

  lemma SuccessorIsNew(s: State, raw: Token, request: Option<RequestId>)
    requires Inv(s) && Live(s, raw)
    ensures Successor(s, raw, request) !in s.tokens && raw != Successor(s, raw, request)
  {
    var next := Successor(s, raw, request);
    assert RowSound(s, raw);
    assert next in s.tokens ==> RowSound(s, next);
    if request.Some? {
      DerivedDiffers(raw, request.value);
    }
  }

  // The old row as it was and as it is now, and the row issued for it.
  ghost predicate ExchangedFor(before: Row, after: Row, issued: Row, q: Option<RequestId>, next: Token, now: Time,
                               exp: Time)
  {
    && after.user == before.user && after.expiresAt == before.expiresAt && after.lineage == before.lineage
    && after.revokedAt == Some(now) && after.request == q
    && (q.Some? ==> after.retryUntil == Some(now + 900_000_000) && after.rotatedTo == Some(next))
    && (q.None? ==> after.retryUntil == None && after.rotatedTo == None)
    && issued.user == before.user && issued.lineage == before.lineage && issued.expiresAt == exp
    && issued.revokedAt == None && issued.request == None && issued.retryUntil == None && issued.rotatedTo == None
  }

  // An exchange, column by column. Something happens exactly if the token is there, unrevoked and
  // unexpired and its profile open; then the token is revoked now, and remembers the request
  // for 900 seconds if one was named, and one row is new: unrevoked, of the same user and
  // login, with the expiry given.
  lemma ExchangeExactly(s: State, raw: Token, q: Option<RequestId>, exp: Time)
    requires Inv(s)
    ensures var t := Rotate(s, raw, q, exp);
            && (t != s <==> raw in s.tokens && s.tokens[raw].revokedAt == None && s.tokens[raw].expiresAt > s.now
                            && s.tokens[raw].user in s.open)
            && (t != s ==>
                  exists next ::
                    && next !in s.tokens && t.tokens.Keys == s.tokens.Keys + {next}
                    && (q.Some? ==> next == Derived(raw, q.value)) && (q.None? ==> next == Minted(s.minted))
                    && (forall k :: k in s.tokens && k != raw ==> t.tokens[k] == s.tokens[k])
                    && ExchangedFor(s.tokens[raw], t.tokens[raw], t.tokens[next], q, next, s.now, exp))
  {
    var t := Rotate(s, raw, q, exp);
    if Rotatable(s, raw) {
      SuccessorIsNew(s, raw, q);
      var next := Successor(s, raw, q);
      assert t.tokens[raw] != s.tokens[raw];
      assert ExchangedFor(s.tokens[raw], t.tokens[raw], t.tokens[next], q, next, s.now, exp);
      assert t.tokens.Keys == s.tokens.Keys + {next};
    }
  }

  // An expired token is never exchanged again: time does not run backwards, and no other action
  // extends it.
  lemma {:induction false} ExpiredIsRefused(s: State, raw: Token, acts: seq<Action>, q: Option<RequestId>, exp: Time)
    requires Inv(s) && raw in s.tokens && s.tokens[raw].expiresAt <= s.now
    ensures Inv(Exec(s, acts)) && Rotate(Exec(s, acts), raw, q, exp) == Exec(s, acts)
    decreases |acts|
  {
    if acts == [] {
      ExchangeExactly(s, raw, q, exp);
    } else {
      ApplyKeepsInv(s, acts[0]);
      ExpiredIsRefused(Apply(s, acts[0]), raw, acts[1..], q, exp);
    }
  }

  lemma RotateKeepsRows(s: State, raw: Token, request: Option<RequestId>, expiresAt: Time, k: Token)
    requires Inv(s) && Rotatable(s, raw) && k in Rotate(s, raw, request, expiresAt).tokens
    ensures RowSound(Rotate(s, raw, request, expiresAt), k)
  {
    SuccessorIsNew(s, raw, request);
    assert RowSound(s, raw);
    if k in s.tokens {
      assert RowSound(s, k);
      if s.tokens[k].request.Some? {
        assert Derived(k, s.tokens[k].request.value) in s.tokens;
      }
    }
  }

  lemma RotateKeepsHistory(s: State, raw: Token, request: Option<RequestId>, expiresAt: Time)
    requires RotatedOnce(s) && Rotatable(s, raw) && Successor(s, raw, request) !in s.tokens
    ensures RotatedOnce(Rotate(s, raw, request, expiresAt)) && Keeps(s, Rotate(s, raw, request, expiresAt))
  {
    var t := Rotate(s, raw, request, expiresAt);
    assert Live(s, raw) && !Live(t, raw);
    forall i | 0 <= i < |t.rotations|
      ensures t.rotations[i] in t.tokens && !Live(t, t.rotations[i])
    {
      assert i < |s.rotations| ==> s.rotations[i] in s.tokens && !Live(s, s.rotations[i]);
    }
    forall i, j | 0 <= i < j < |t.rotations|
      ensures t.rotations[i] != t.rotations[j]
    {
      assert s.rotations[i] in s.tokens && !Live(s, s.rotations[i]);
    }
  }

  lemma RotateKeepsInv(s: State, raw: Token, request: Option<RequestId>, expiresAt: Time)
    requires Inv(s) && Rotatable(s, raw)
    ensures Successor(s, raw, request) !in s.tokens
    ensures Inv(Rotate(s, raw, request, expiresAt)) && Keeps(s, Rotate(s, raw, request, expiresAt))
  {
    SuccessorIsNew(s, raw, request);
    var next := Successor(s, raw, request);
    var t := Rotate(s, raw, request, expiresAt);
    forall k | k in t.tokens
      ensures RowSound(t, k)
    {
      RotateKeepsRows(s, raw, request, expiresAt, k);
    }
    assert forall k :: Live(t, k) ==> k == next || (Live(s, k) && k != raw);
    assert forall k :: k in s.tokens ==> k in t.tokens && t.tokens[k].lineage == s.tokens[k].lineage;
    assert OneLive(t);
    RotateKeepsHistory(s, raw, request, expiresAt);
  }

  lemma RevokeKeepsInv(s: State, t: State)
    requires Inv(s)
    requires t == s.(tokens := t.tokens, open := t.open) && t.tokens.Keys == s.tokens.Keys
    requires forall k :: k in s.tokens ==> t.tokens[k] == s.tokens[k] || t.tokens[k] == Revoked(s.tokens[k], s.now)
    ensures Inv(t) && Keeps(s, t)
  {
    forall k | k in t.tokens
      ensures RowSound(t, k)
    {
      assert RowSound(s, k);
    }
    assert forall k :: Live(t, k) ==> Live(s, k);
    assert OneLive(t);
    forall i | 0 <= i < |t.rotations|
      ensures t.rotations[i] in t.tokens && !Live(t, t.rotations[i])
    {
      assert s.rotations[i] in s.tokens && !Live(s, s.rotations[i]);
    }
  }

  lemma LoginKeepsInv(s: State, user: UserId, expiresAt: Time)
    requires Inv(s)
    ensures Inv(Login(s, user, expiresAt)) && Keeps(s, Login(s, user, expiresAt))
  {
    var t := Login(s, user, expiresAt);
    var issued := Minted(s.minted);
    assert issued in s.tokens ==> RowSound(s, issued);
    forall k | k in t.tokens
      ensures RowSound(t, k)
    {
      if k in s.tokens {
        assert RowSound(s, k);
      }
    }
    forall k, v | Live(t, k) && Live(t, v) && t.tokens[k].lineage == t.tokens[v].lineage
      ensures k == v
    {
      assert k in s.tokens ==> RowSound(s, k) && Live(s, k);
      assert v in s.tokens ==> RowSound(s, v) && Live(s, v);
    }
    forall i | 0 <= i < |t.rotations|
      ensures t.rotations[i] in t.tokens && !Live(t, t.rotations[i])
    {
      assert s.rotations[i] in s.tokens && !Live(s, s.rotations[i]);
    }
  }

  lemma ApplyKeepsInv(s: State, a: Action)
    requires Inv(s)
    ensures Inv(Apply(s, a)) && Keeps(s, Apply(s, a))
  {
    match a
    case DoTick(dt) => TickKeepsInv(s, dt);
    case DoOpen(u) => RevokeKeepsInv(s, Apply(s, a));
    case DoClose(u) => RevokeKeepsInv(s, Apply(s, a));
    case DoLogin(u, exp) => LoginKeepsInv(s, u, exp);
    case DoRotate(raw, request, exp) =>
      if Rotatable(s, raw) {
        RotateKeepsInv(s, raw, request, exp);
      }
    case DoLogout(raw, request) => RevokeKeepsInv(s, Apply(s, a));
    case DoLogoutAll(u) => RevokeKeepsInv(s, Apply(s, a));
  }

  lemma TickKeepsInv(s: State, dt: nat)
    requires Inv(s)
    ensures Inv(Apply(s, DoTick(dt))) && Keeps(s, Apply(s, DoTick(dt)))
  {
    var t := Apply(s, DoTick(dt));
    forall k | k in t.tokens
      ensures RowSound(t, k)
    {
      assert RowSound(s, k);
    }
    assert forall k :: Live(t, k) <==> Live(s, k);
  }

  // ---------------------------------------------------------------- lineages

  // On every run each login has at most one unrevoked token, no token is exchanged twice, and
  // no rotation ever meets an existing successor.
  lemma {:induction false} LineageIsLinear(now: Time, acts: seq<Action>)
    ensures var s := Exec(Initial(now), acts);
            && OneLive(s) && RotatedOnce(s)
            && (forall raw, request :: Rotatable(s, raw) ==> Successor(s, raw, request) !in s.tokens)
  {
    assert Inv(Initial(now));
    RunKeepsInv(Initial(now), acts);
    var s := Exec(Initial(now), acts);
    forall raw, request | Rotatable(s, raw)
      ensures Successor(s, raw, request) !in s.tokens
    {
      RotateKeepsInv(s, raw, request, s.now);
    }
  }

  lemma {:induction false} RunKeepsInv(s: State, acts: seq<Action>)
    requires Inv(s)
    ensures Inv(Exec(s, acts))
    decreases |acts|
  {
    if acts != [] {
      ApplyKeepsInv(s, acts[0]);
      RunKeepsInv(Apply(s, acts[0]), acts[1..]);
    }
  }

  // No token of this lineage is unrevoked.
  ghost predicate Dead(s: State, lineage: nat) {
    forall t :: t in s.tokens && s.tokens[t].lineage == lineage ==> !Live(s, t)
  }

  // Neither statement of an exchange does anything for any token of this lineage.
  ghost predicate Inert(s: State, lineage: nat) {
    forall raw, request, exp :: raw in s.tokens && s.tokens[raw].lineage == lineage ==>
      Rotate(s, raw, request, exp) == s && Replay(s, raw, request).None?
  }

  lemma DeadIsInert(s: State, lineage: nat, raw: Token, request: Option<RequestId>, exp: Time)
    requires Inv(s) && Dead(s, lineage) && raw in s.tokens && s.tokens[raw].lineage == lineage
    ensures Rotate(s, raw, request, exp) == s && Replay(s, raw, request).None?
  {
    assert RowSound(s, raw);
  }

  lemma DeadLineageIsInert(s: State, lineage: nat)
    requires Inv(s) && Dead(s, lineage)
    ensures Inert(s, lineage)
  {
    forall raw, request, exp | raw in s.tokens && s.tokens[raw].lineage == lineage
      ensures Rotate(s, raw, request, exp) == s && Replay(s, raw, request).None?
    {
      DeadIsInert(s, lineage, raw, request, exp);
    }
  }

  lemma DeadStays(s: State, lineage: nat, a: Action)
    requires Inv(s) && Dead(s, lineage) && lineage < s.minted
    ensures Dead(Apply(s, a), lineage)
  {
    ApplyKeepsInv(s, a);
    var t := Apply(s, a);
    forall k | k in t.tokens && t.tokens[k].lineage == lineage
      ensures !Live(t, k)
    {
      assert k in s.tokens;
    }
  }

  // A dead lineage stays dead, and none of its tokens is ever exchanged or replayed again.
  lemma {:induction false} DeadForever(s: State, lineage: nat, acts: seq<Action>)
    requires Inv(s) && Dead(s, lineage) && lineage < s.minted
    ensures var t := Exec(s, acts);
            Inv(t) && Dead(t, lineage) && Inert(t, lineage)
    decreases |acts|
  {
    if acts == [] {
      DeadLineageIsInert(s, lineage);
    } else {
      ApplyKeepsInv(s, acts[0]);
      DeadStays(s, lineage, acts[0]);
      DeadForever(Apply(s, acts[0]), lineage, acts[1..]);
    }
  }

  // ---------------------------------------------------------------- replay

  // Row k was revoked with this content; nothing will change it.
  lemma {:induction false} RevokedRowStays(s: State, k: Token, acts: seq<Action>)
    requires Inv(s) && k in s.tokens && !Live(s, k)
    ensures Inv(Exec(s, acts)) && k in Exec(s, acts).tokens && Exec(s, acts).tokens[k] == s.tokens[k]
    decreases |acts|
  {
    if acts != [] {
      ApplyKeepsInv(s, acts[0]);
      RevokedRowStays(Apply(s, acts[0]), k, acts[1..]);
    }
  }

  // After a rotation under request r, in every later state: the exchange itself never happens
  // again and adds no row, and a retry is answered, with the very same successor, exactly
  // when it names r, comes within 900 seconds, and finds the successor unrevoked and unexpired
  // and the profile open.
  lemma ReplayExactly(s: State, raw: Token, r: RequestId, expiresAt: Time, acts: seq<Action>,
                      q: Option<RequestId>, later: Time)
    requires Inv(s) && Rotatable(s, raw)
    ensures var next := Derived(raw, r);
            var t := Exec(Rotate(s, raw, Some(r), expiresAt), acts);
            && next in t.tokens
            && Rotate(t, raw, q, later) == t
            && Replay(t, raw, q) ==
               if q == Some(r) && t.now < s.now + 900_000_000 && s.tokens[raw].user in t.open &&
                  Live(t, next) && t.tokens[next].expiresAt > t.now
               then Some(next) else None
  {
    RotateKeepsInv(s, raw, Some(r), expiresAt);
    var s1 := Rotate(s, raw, Some(r), expiresAt);
    RevokedRowStays(s1, raw, acts);
    assert RowSound(Exec(s1, acts), raw);
  }

  // A successor that was itself exchanged ends the replay for good.
  lemma NoReplayAfterExchange(s: State, raw: Token, r: RequestId, acts: seq<Action>, q: Option<RequestId>)
    requires Inv(s) && raw in s.tokens && s.tokens[raw].request == Some(r) && Derived(raw, r) in s.rotations
    ensures Replay(Exec(s, acts), raw, q).None?
  {
    assert RowSound(s, raw);
    var i :| 0 <= i < |s.rotations| && s.rotations[i] == Derived(raw, r);
    RevokedRowStays(s, raw, acts);
    RevokedRowStays(s, Derived(raw, r), acts);
  }

  // ---------------------------------------------------------------- logout

  // The only tokens of t's lineage that may be unrevoked are t and what request r made of it.
  ghost predicate Pending(s: State, t: Token, r: RequestId) {
    && t in s.tokens
    && (forall x :: Live(s, x) && s.tokens[x].lineage == s.tokens[t].lineage ==>
          x == t || (x == Derived(t, r) && s.tokens[t].request == Some(r)))
  }

  // The client rotates t only under r, and never uses the successor it has not been told.
  predicate Discreet(acts: seq<Action>, t: Token, r: RequestId) {
    forall a :: a in acts && a.DoRotate? ==> a.raw != Derived(t, r) && (a.raw == t ==> a.request == Some(r))
  }

  lemma PendingStays(s: State, t: Token, r: RequestId, a: Action)
    requires Inv(s) && Pending(s, t, r) && Discreet([a], t, r)
    ensures Pending(Apply(s, a), t, r) && Apply(s, a).tokens[t].lineage == s.tokens[t].lineage
  {
    ApplyKeepsInv(s, a);
    assert a in [a];
    var s1 := Apply(s, a);
    forall x | Live(s1, x) && s1.tokens[x].lineage == s1.tokens[t].lineage
      ensures x == t || (x == Derived(t, r) && s1.tokens[t].request == Some(r))
    {
      assert RowSound(s, t);
      if x in s.tokens {
        assert Live(s, x);
      } else if a.DoRotate? {
        assert Live(s, a.raw);
      }
    }
  }

  lemma LogoutKillsPending(s: State, t: Token, r: RequestId)
    requires Inv(s) && Pending(s, t, r)
    ensures Dead(Logout(s, t, Some(r)), s.tokens[t].lineage)
  {
    assert RowSound(s, t);
    var s1 := Logout(s, t, Some(r));
    forall x | x in s1.tokens && s1.tokens[x].lineage == s.tokens[t].lineage
      ensures !Live(s1, x)
    {
      if Live(s, x) {
        assert Named(s, t, Some(r), x);
      }
    }
  }

  // Logout wins. From any reachable state whose lineage has no unrevoked token but t, however
  // the logout, the rotation it races with, that rotation's retries and everyone else's actions
  // are interleaved, the lineage is dead at the end.
  lemma {:induction false} LogoutWins(s: State, t: Token, r: RequestId, acts: seq<Action>)
    requires Inv(s) && Pending(s, t, r) && Discreet(acts, t, r) && DoLogout(t, Some(r)) in acts
    ensures Inv(Exec(s, acts)) && Dead(Exec(s, acts), s.tokens[t].lineage) && Inert(Exec(s, acts), s.tokens[t].lineage)
    decreases |acts|
  {
    assert RowSound(s, t);
    ApplyKeepsInv(s, acts[0]);
    var s1 := Apply(s, acts[0]);
    if acts[0] == DoLogout(t, Some(r)) {
      LogoutKillsPending(s, t, r);
      DeadForever(s1, s.tokens[t].lineage, acts[1..]);
    } else {
      assert acts[0] in acts && Discreet([acts[0]], t, r);
      PendingStays(s, t, r, acts[0]);
      LogoutWins(s1, t, r, acts[1..]);
    }
  }

  // The two orders of a logout and the rotation it races with.
  lemma LogoutConfluent(s: State, t: Token, r: RequestId, expiresAt: Time)
    requires Inv(s) && Live(s, t)
    ensures Dead(Logout(Rotate(s, t, Some(r), expiresAt), t, Some(r)), s.tokens[t].lineage)
    ensures Dead(Rotate(Logout(s, t, Some(r)), t, Some(r), expiresAt), s.tokens[t].lineage)
  {
    var rotate, logout := DoRotate(t, Some(r), expiresAt), DoLogout(t, Some(r));
    assert Derived(t, r) != t by {
      DerivedDiffers(t, r);
    }
    LogoutWins(s, t, r, [rotate, logout]);
    assert [rotate, logout][1..] == [logout];
    LogoutWins(s, t, r, [logout, rotate]);
    assert [logout, rotate][1..] == [rotate];
  }

  lemma {:induction false} DerivedDiffers(t: Token, r: RequestId)
    ensures Derived(t, r) != t
  {
    assert t < Derived(t, r);
  }

  // What a logout achieves in any reachable state: the lineage is dead exactly when its
  // unrevoked token, if any, is the one presented or the pending request's successor. A client
  // that logs out with an older token, or with another request id, leaves the session open.
  lemma LogoutExactly(s: State, t: Token, q: Option<RequestId>)
    requires Inv(s) && t in s.tokens
    ensures Dead(Logout(s, t, q), s.tokens[t].lineage) <==>
            forall x :: Live(s, x) && s.tokens[x].lineage == s.tokens[t].lineage ==>
              x == t || (q.Some? && s.tokens[t].request == q && x == Derived(t, q.value))
  {
    assert RowSound(s, t);
    var s1 := Logout(s, t, q);
    assert forall x :: Live(s1, x) <==> Live(s, x) && !Named(s, t, q, x);
    assert forall x :: x in s.tokens ==> s1.tokens[x].lineage == s.tokens[x].lineage;
    if !Dead(s1, s.tokens[t].lineage) {
      var x :| x in s1.tokens && s1.tokens[x].lineage == s.tokens[t].lineage && Live(s1, x);
      assert Live(s, x) && !Named(s, t, q, x);
    }
  }

  // ---------------------------------------------------------------- a logout that has to wait

  // A logout that read the table when it was `seen` and then waited for a row lock: it names
  // and revokes what it saw, in the table as it is by then. A token issued meanwhile it never
  // saw.
  function LateLogout(s: State, seen: State, raw: Token, request: Option<RequestId>): State {
    s.(tokens := map t | t in s.tokens ::
         if t in seen.tokens && Named(seen, raw, request, t) then Revoked(s.tokens[t], s.now) else s.tokens[t])
  }

  // Without waiting it is the logout.
  lemma LateLogoutAtOnce(s: State, raw: Token, request: Option<RequestId>)
    ensures LateLogout(s, s, raw, request) == Logout(s, raw, request)
  {
    assert LateLogout(s, s, raw, request).tokens == Logout(s, raw, request).tokens;
  }

  // What it achieves, whatever others did while it waited.
  lemma LateLogoutExactly(s: State, seen: State, t: Token, q: Option<RequestId>)
    requires t in s.tokens
    ensures Dead(LateLogout(s, seen, t, q), s.tokens[t].lineage) <==>
            forall x :: Live(s, x) && s.tokens[x].lineage == s.tokens[t].lineage ==>
              x in seen.tokens && Named(seen, t, q, x)
  {
    var s1 := LateLogout(s, seen, t, q);
    forall x | Live(s, x) && s.tokens[x].lineage == s.tokens[t].lineage
      ensures Live(s1, x) <==> !(x in seen.tokens && Named(seen, t, q, x))
    {
      assert x in s1.tokens && s1.tokens[x].lineage == s.tokens[t].lineage;
    }
    forall x | x in s1.tokens && Live(s1, x)
      ensures Live(s, x)
    {
    }
  }

  // Nobody else revokes t or its successor under r.
  predicate Spares(acts: seq<Action>, t: Token, r: RequestId, user: UserId) {
    forall a :: a in acts ==>
      && a != DoLogoutAll(user) && a != DoClose(user)
      && (a.DoLogout? ==>
            && a.raw != t && a.raw != Derived(t, r)
            && (a.request.Some? ==> t != Derived(a.raw, a.request.value)))
  }

  // While t is spared and used with discretion, either it has not been exchanged and is
  // unrevoked, or it has been and its successor is.
  ghost predicate Spared(s: State, t: Token, r: RequestId) {
    && t in s.tokens
    && (if t in s.rotations then Live(s, Derived(t, r)) && s.tokens[Derived(t, r)].lineage == s.tokens[t].lineage
        else Live(s, t) && Derived(t, r) !in s.tokens)
    && (Live(s, Derived(t, r)) ==> s.tokens[Derived(t, r)].user == s.tokens[t].user)
  }

  lemma RotationSpares(s: State, t: Token, r: RequestId, raw: Token, request: Option<RequestId>, exp: Time)
    requires Inv(s) && Spared(s, t, r) && Rotatable(s, raw)
    requires raw != Derived(t, r) && (raw == t ==> request == Some(r))
    ensures Spared(Rotate(s, raw, request, exp), t, r)
  {
    SuccessorIsNew(s, raw, request);
    DerivedDiffers(t, r);
    assert RowSound(s, raw);
    var s1 := Rotate(s, raw, request, exp);
    assert t in s1.rotations <==> t in s.rotations || raw == t;
  }

  lemma LogoutSpares(s: State, t: Token, r: RequestId, raw: Token, request: Option<RequestId>)
    requires Inv(s) && Spared(s, t, r) && raw != t && raw != Derived(t, r)
    requires request.Some? ==> t != Derived(raw, request.value)
    ensures Spared(Logout(s, raw, request), t, r)
  {
    assert raw in s.tokens ==> RowSound(s, raw);
    assert !Named(s, raw, request, t) && !Named(s, raw, request, Derived(t, r));
  }

  lemma LoginSpares(s: State, t: Token, r: RequestId, user: UserId, exp: Time)
    requires Inv(s) && Spared(s, t, r)
    ensures Spared(Login(s, user, exp), t, r)
  {
    var issued := Minted(s.minted);
    assert issued in s.tokens ==> RowSound(s, issued);
  }

  lemma SparedStays(s: State, t: Token, r: RequestId, a: Action)
    requires Inv(s) && Spared(s, t, r) && Discreet([a], t, r) && Spares([a], t, r, s.tokens[t].user)
    ensures Spared(Apply(s, a), t, r) && Apply(s, a).tokens[t].user == s.tokens[t].user
    ensures Apply(s, a).tokens[t].lineage == s.tokens[t].lineage
  {
    assert a in [a];
    ApplyKeepsInv(s, a);
    match a
    case DoTick(dt) =>
    case DoOpen(u) =>
    case DoClose(u) =>
    case DoLogin(u, exp) => LoginSpares(s, t, r, u, exp);
    case DoRotate(raw, request, exp) =>
      if Rotatable(s, raw) {
        RotationSpares(s, t, r, raw, request, exp);
      }
    case DoLogout(raw, request) => LogoutSpares(s, t, r, raw, request);
    case DoLogoutAll(u) =>
  }

  lemma {:induction false} SparedToTheEnd(s: State, t: Token, r: RequestId, acts: seq<Action>)
    requires Inv(s) && Spared(s, t, r) && Discreet(acts, t, r) && Spares(acts, t, r, s.tokens[t].user)
    ensures Inv(Exec(s, acts)) && Spared(Exec(s, acts), t, r)
    ensures Exec(s, acts).tokens[t].lineage == s.tokens[t].lineage
    decreases |acts|
  {
    if acts != [] {
      assert acts[0] in acts;
      ApplyKeepsInv(s, acts[0]);
      assert Discreet([acts[0]], t, r) && Spares([acts[0]], t, r, s.tokens[t].user);
      SparedStays(s, t, r, acts[0]);
      assert forall a :: a in acts[1..] ==> a in acts;
      SparedToTheEnd(Apply(s, acts[0]), t, r, acts[1..]);
    }
  }

  // The race at the level of snapshots. A logout reads the table while t is unrevoked, waits,
  // and takes effect after the actions of others. If nobody else ends the session meanwhile,
  // the lineage is dead afterwards exactly when no rotation of t was committed in between: a
  // rotation that was leaves its successor alive.
  lemma LogoutRace(s: State, t: Token, r: RequestId, acts: seq<Action>)
    requires Inv(s) && Live(s, t)
    requires Discreet(acts, t, r) && Spares(acts, t, r, s.tokens[t].user)
    ensures var s1 := Exec(s, acts);
            Dead(LateLogout(s1, s, t, Some(r)), s.tokens[t].lineage) <==> t !in s1.rotations
  {
    var s1 := Exec(s, acts);
    SuccessorIsNew(s, t, Some(r));
    assert t !in s.rotations;
    SparedToTheEnd(s, t, r, acts);
    LateLogoutExactly(s1, s, t, Some(r));
    if t in s1.rotations {
      assert Live(s1, Derived(t, r)) && Derived(t, r) !in s.tokens;
    } else {
      assert Live(s1, t);
      assert Named(s, t, Some(r), t);
    }
  }

  lemma {:induction false} ExecAppend(s: State, a: seq<Action>, b: seq<Action>)
    ensures Exec(s, a + b) == Exec(Exec(s, a), b)
    decreases |a|
  {
    if a == [] {
      assert a + b == b;
    } else {
      assert (a + b)[0] == a[0] && (a + b)[1..] == a[1..] + b;
      ExecAppend(Apply(s, a[0]), a[1..], b);
    }
  }

  // ---------------------------------------------------------------- the functions of the source

  // The table auth_refresh_tokens with the functions that change it. Other callers may act
  // between any two statements.
  class TokenStore {
    var now: Time
    var minted: nat
    var open: set<UserId>
    var tokens: map<Token, Row>
    ghost var rotations: seq<Token>
    ghost var trace: seq<Action>
    ghost const start: Time

    ghost function Model(): State
      reads this
    {
      State(now, minted, open, tokens, rotations)
    }

    ghost predicate Valid()
      reads this
    {
      Model() == Exec(Initial(start), trace)
    }

    constructor (start: Time)
      ensures Valid() && trace == [] && Model() == Initial(start)
    {
      this.start := start;
      now, minted, open, tokens, rotations, trace := start, 0, {}, map[], [], [];
    }

    // Books the action whose effect has just been made on the tables.
    ghost method Book(a: Action, before: State)
      requires before == Exec(Initial(start), trace) && Model() == Apply(before, a)
      modifies this`trace
      ensures Valid() && trace == old(trace) + [a]
    {
      ExecAppend(Initial(start), trace, [a]);
      trace := trace + [a];
    }

    // Any number of actions of others. The body stands for none; callers rely on the contract.
    method Interfere()
      requires Valid()
      modifies this
      ensures Valid() && old(trace) <= trace
    {
    }

    method CreateRefreshToken(user: UserId, expiresAt: Time) returns (raw: Token)
      requires Valid()
      modifies this
      ensures Valid() && Model() == Login(old(Model()), user, expiresAt)
      ensures raw !in old(tokens) && Live(Model(), raw)
      ensures tokens == old(tokens)[raw := tokens[raw]]
      ensures tokens[raw].user == user && tokens[raw].expiresAt == expiresAt
      ensures forall k :: k in old(tokens) ==> old(tokens)[k].lineage != tokens[raw].lineage
    {
      ghost var before := Model();
      RunKeepsInv(Initial(start), trace);
      assert Minted(minted) in tokens ==> RowSound(before, Minted(minted));
      forall k | k in tokens
        ensures tokens[k].lineage < minted
      {
        assert RowSound(before, k);
      }
      raw := Minted(minted);
      tokens := tokens[raw := Issued(user, expiresAt, minted)];
      minted := minted + 1;
      Book(DoLogin(user, expiresAt), before);
    }

    // The first statement: revoke the source, remember the request, issue the successor.
    method RevokeAndIssue(raw: Token, request: Option<RequestId>, expiresAt: Time) returns (issued: Option<Token>)
      requires Valid()
      modifies this
      ensures Valid() && now == old(now) && open == old(open)
      ensures issued.Some? <==>
                && raw in old(tokens) && old(tokens)[raw].revokedAt == None
                && old(tokens)[raw].expiresAt > old(now) && old(tokens)[raw].user in old(open)
      ensures issued.None? ==> Model() == old(Model()) && trace == old(trace)
      ensures issued.Some? ==>
                && Model() == Rotate(old(Model()), raw, request, expiresAt)
                && issued == Some(Successor(old(Model()), raw, request))
                && trace == old(trace) + [DoRotate(raw, request, expiresAt)]
      // By columns: the row that was exchanged, and the row issued for it.
      ensures issued.Some? ==>
                && issued.value !in old(tokens) && raw in tokens && issued.value in tokens
                && ExchangedFor(old(tokens)[raw], tokens[raw], tokens[issued.value], request, issued.value,
                                old(now), expiresAt)
    {
      ghost var before := Model();
      RunKeepsInv(Initial(start), trace);
      ExchangeExactly(before, raw, request, expiresAt);
      issued := None;
      if raw in tokens && tokens[raw].revokedAt.None? && tokens[raw].expiresAt > now && tokens[raw].user in open {
        SuccessorIsNew(before, raw, request);
        var row := tokens[raw];
        var next := Derived(raw, "");
        if request.Some? {
          next := Derived(raw, request.value);
          tokens := tokens[raw := Row(row.user, row.expiresAt, Some(now), request, Some(now + REPLAY_WINDOW),
                                      Some(next), row.lineage)];
        } else {
          next := Minted(minted);
          minted := minted + 1;
          tokens := tokens[raw := Row(row.user, row.expiresAt, Some(now), None, None, None, row.lineage)];
        }
        tokens := tokens[next := Issued(row.user, expiresAt, row.lineage)];
        rotations := rotations + [raw];
        Book(DoRotate(raw, request, expiresAt), before);
        issued := Some(next);
      }
    }

    // When the first statement returns no row and the caller named a request, a second one looks
    // for the answer that may have been lost. Whoever gets a token gets the one unrevoked token
    // of the lineage it presented.
    method RotateRefreshToken(raw: Token, request: Option<RequestId>, expiresAt: Time)
      returns (result: Option<Token>, ghost exchanged: bool)
      requires Valid()
      modifies this
      ensures Valid() && old(trace) <= trace
      ensures exchanged <==>
                && raw in old(tokens) && old(tokens)[raw].revokedAt == None
                && old(tokens)[raw].expiresAt > old(now) && old(tokens)[raw].user in old(open)
      ensures exchanged ==>
                && Model() == Rotate(old(Model()), raw, request, expiresAt)
                && result == Some(Successor(old(Model()), raw, request))
      ensures exchanged ==>
                && raw in tokens && result.value in tokens && result.value !in old(tokens)
                && ExchangedFor(old(tokens)[raw], tokens[raw], tokens[result.value], request, result.value,
                                old(now), expiresAt)
      ensures !exchanged ==> result == Replay(Model(), raw, request)
      ensures !exchanged && request.None? ==> result.None? && Model() == old(Model())
      ensures result.Some? ==>
                && raw in tokens && tokens[raw].user in open
                && Live(Model(), result.value) && tokens[result.value].lineage == tokens[raw].lineage
    {
      result := RevokeAndIssue(raw, request, expiresAt);
      exchanged := result.Some?;
      if result.None? && request.Some? {
        Interfere();
        result := Replay(State(now, minted, open, tokens, []), raw, request);
        RunKeepsInv(Initial(start), trace);
        assert raw in tokens ==> RowSound(Model(), raw);
      }
    }

    // With a request id the logout also revokes what that request made of the token.
    method RevokeRefreshToken(raw: Token, request: Option<RequestId>)
      requires Valid()
      modifies this
      ensures Valid() && Model() == Logout(old(Model()), raw, request)
      // By columns: nothing but the named tokens is touched, and they are revoked.
      ensures tokens.Keys == old(tokens).Keys
      ensures forall t :: t in tokens ==>
                if t == raw || (&& request.Some? && raw in old(tokens) && old(tokens)[raw].request == request
                                && old(tokens)[raw].rotatedTo == Some(t))
                then tokens[t] == old(tokens)[t].(revokedAt := tokens[t].revokedAt) && tokens[t].revokedAt ==
                       (if old(tokens)[t].revokedAt.Some? then old(tokens)[t].revokedAt else Some(old(now)))
                else tokens[t] == old(tokens)[t]
    {
      ghost var before := Model();
      var named := {raw};
      if request.Some? && raw in tokens && tokens[raw].request == request && tokens[raw].rotatedTo.Some? {
        named := named + {tokens[raw].rotatedTo.value};
      }
      tokens := map t | t in tokens ::
        if t in named && tokens[t].revokedAt.None? then tokens[t].(revokedAt := Some(now)) else tokens[t];
      assert tokens == Logout(before, raw, request).tokens;
      Book(DoLogout(raw, request), before);
    }

    method RevokeAllRefreshTokens(user: UserId)
      requires Valid()
      modifies this
      ensures Valid() && Model() == LogoutAll(old(Model()), user)
      ensures forall t :: t in tokens && tokens[t].user == user ==> !Live(Model(), t)
      ensures tokens.Keys == old(tokens).Keys
      ensures forall t :: t in tokens && (tokens[t].user != user || old(tokens)[t].revokedAt.Some?) ==>
                tokens[t] == old(tokens)[t]
    {
      ghost var before := Model();
      tokens := map t | t in tokens ::
        if tokens[t].user == user && tokens[t].revokedAt.None? then tokens[t].(revokedAt := Some(now)) else tokens[t];
      assert tokens == LogoutAll(before, user).tokens;
      Book(DoLogoutAll(user), before);
    }
  }
}
