/** The choice of the transaction that a StoreKit restore reconciles with. */
module RestoreSelection {
  import opened Options
  import opened SubscriptionTheorems
  import opened Subscriptions

  datatype AccountToken = NoToken | Malformed | For(user: UserId)

  // A signed transaction with a good signature. A field is None where the source finds no
  // usable value: an id that is not all digits, a date that is no number or out of range.
  datatype Transaction = Transaction(
    bundle: string,
    environment: string,
    product: Option<string>,
    account: AccountToken,
    id: Option<string>,
    purchased: Option<Time>,
    expires: Option<Time>,
    revoked: bool)

  datatype Signed = Unverifiable | Verified(tx: Transaction)

  datatype Settings = Settings(bundle: string, environment: string, products: set<string>)

  datatype Refusal = BadSignature | OtherApplication | OtherEnvironment | BadAccountToken | OtherAccount

  datatype Entry = Entry(purchased: Time, id: string, expires: Time)

  datatype Judgement = Refuse(reason: Refusal) | Skip | Take(entry: Entry)

  // What one transaction means for this user now.
  function Judge(signed: Signed, user: UserId, now: Time, cfg: Settings): Judgement {
    if signed.Unverifiable? then Refuse(BadSignature)
    else
      var tx := signed.tx;
      if tx.bundle != cfg.bundle then Refuse(OtherApplication)
      else if tx.environment != cfg.environment then Refuse(OtherEnvironment)
      else if tx.product.None? || tx.product.value !in cfg.products then Skip
      else if tx.account.Malformed? then Refuse(BadAccountToken)
      else if tx.account.For? && tx.account.user != user then Refuse(OtherAccount)
      else if tx.id.None? || tx.purchased.None? || tx.expires.None? then Skip
      else if tx.expires.value <= now || tx.revoked then Skip
      else Take(Entry(tx.purchased.value, tx.id.value, tx.expires.value))
  }

  // A transaction counts exactly if its signature is good and it is of this application, this
  // environment and a known subscription product, names this account or none, has an id and two
  // dates, runs beyond now and was not revoked.
  lemma TakenExactly(signed: Signed, user: UserId, now: Time, cfg: Settings)
    ensures Judge(signed, user, now, cfg).Take? <==>
              && signed.Verified?
              && signed.tx.bundle == cfg.bundle && signed.tx.environment == cfg.environment
              && signed.tx.product.Some? && signed.tx.product.value in cfg.products
              && (signed.tx.account == NoToken || signed.tx.account == For(user))
              && signed.tx.id.Some? && signed.tx.purchased.Some? && signed.tx.expires.Some?
              && signed.tx.expires.value > now && !signed.tx.revoked
    ensures Judge(signed, user, now, cfg).Take? ==>
              Judge(signed, user, now, cfg).entry ==
              Entry(signed.tx.purchased.value, signed.tx.id.value, signed.tx.expires.value)
  {
  }

  // The whole restore is refused exactly for a bad signature, a transaction of another
  // application or environment, and one of a known product whose account is unreadable or not
  // this one; a product that is not known is passed over whatever account it names.
  lemma RefusedExactly(signed: Signed, user: UserId, now: Time, cfg: Settings)
    ensures Judge(signed, user, now, cfg).Refuse? <==>
              || signed.Unverifiable?
              || signed.tx.bundle != cfg.bundle || signed.tx.environment != cfg.environment
              || (&& signed.tx.product.Some? && signed.tx.product.value in cfg.products
                  && signed.tx.account != NoToken && signed.tx.account != For(user))
    ensures Judge(signed, user, now, cfg) == Refuse(OtherAccount) ==>
              signed.tx.account.For? && signed.tx.account.user != user && signed.tx.product.value in cfg.products
  {
  }

  // ---------------------------------------------------------------- the order of the tuples

  predicate TextAtMost(a: string, b: string) {
    a == [] || (b != [] && (a[0] < b[0] || (a[0] == b[0] && TextAtMost(a[1..], b[1..]))))
  }

  predicate AtMost(a: Entry, b: Entry) {
    || a.purchased < b.purchased
    || (a.purchased == b.purchased && a.id != b.id && TextAtMost(a.id, b.id))
    || (a.purchased == b.purchased && a.id == b.id && a.expires <= b.expires)
  }

  lemma {:induction false} TextOrder(a: string, b: string, c: string)
    ensures TextAtMost(a, a)
    ensures TextAtMost(a, b) || TextAtMost(b, a)
    ensures TextAtMost(a, b) && TextAtMost(b, a) ==> a == b
    ensures TextAtMost(a, b) && TextAtMost(b, c) ==> TextAtMost(a, c)
    decreases |a|
  {
    if a != [] {
      var rest: string -> string := s => if s == [] then [] else s[1..];
      TextOrder(a[1..], rest(b), rest(c));
      if b != [] && a[0] == b[0] && a[1..] == b[1..] {
        assert a == [a[0]] + a[1..] && b == [b[0]] + b[1..];
      }
    }
  }

  // Texts compare by their first difference, and a beginning of a text comes before it.
  lemma {:induction false} FirstDifferenceDecides(a: string, b: string, i: nat)
    requires i <= |a| && i < |b| && a[..i] == b[..i] && (i == |a| || a[i] < b[i])
    ensures TextAtMost(a, b) && !TextAtMost(b, a)
    decreases i
  {
    if i > 0 {
      assert a[0] == a[..i][0] == b[..i][0] == b[0];
      assert a[1..][..i - 1] == a[..i][1..] && b[1..][..i - 1] == b[..i][1..];
      FirstDifferenceDecides(a[1..], b[1..], i - 1);
    }
  }

  // The order in which max compares is total and transitive, and ties are equal.
  lemma EntryOrder(a: Entry, b: Entry, c: Entry)
    ensures AtMost(a, b) || AtMost(b, a)
    ensures AtMost(a, b) && AtMost(b, a) ==> a == b
    ensures AtMost(a, b) && AtMost(b, c) ==> AtMost(a, c)
  {
    TextOrder(a.id, b.id, c.id);
    TextOrder(b.id, c.id, a.id);
    TextOrder(c.id, a.id, b.id);
    TextOrder(b.id, a.id, c.id);
  }

  // ---------------------------------------------------------------- the loop

  datatype Selection = Refused(reason: Refusal) | Selected(entry: Option<Entry>)

  method Latest(valid: seq<Entry>) returns (latest: Entry)
    requires valid != []
    ensures latest in valid && forall i :: 0 <= i < |valid| ==> AtMost(valid[i], latest)
  {
    latest := valid[0];
    EntryOrder(latest, latest, latest);
    for n := 1 to |valid|
      invariant latest in valid
      invariant forall i :: 0 <= i < n ==> AtMost(valid[i], latest)
    {
      ghost var before := latest;
      EntryOrder(valid[n], before, before);
      if !AtMost(valid[n], latest) {
        latest := valid[n];
      }
      forall i | 0 <= i < n
        ensures AtMost(valid[i], latest)
      {
        EntryOrder(valid[i], before, latest);
      }
      EntryOrder(valid[n], valid[n], valid[n]);
    }
  }

  // One bad, foreign or misaddressed transaction refuses the whole restore, with the reason of
  // the first; otherwise the newest purchase that still runs is selected, if there is one.
  method SelectTransaction(signed: seq<Signed>, user: UserId, now: Time, cfg: Settings) returns (result: Selection)
    ensures result.Selected? <==> forall i :: 0 <= i < |signed| ==> !Judge(signed[i], user, now, cfg).Refuse?
    ensures result.Refused? ==>
              exists i :: 0 <= i < |signed| && Judge(signed[i], user, now, cfg) == Refuse(result.reason) &&
                          forall j :: 0 <= j < i ==> !Judge(signed[j], user, now, cfg).Refuse?
    ensures result.Selected? ==>
              (result.entry.None? <==> forall i :: 0 <= i < |signed| ==> !Judge(signed[i], user, now, cfg).Take?)
    ensures result.Selected? && result.entry.Some? ==>
              && (exists i :: 0 <= i < |signed| && Judge(signed[i], user, now, cfg) == Take(result.entry.value))
              && (forall i :: 0 <= i < |signed| && Judge(signed[i], user, now, cfg).Take? ==>
                    AtMost(Judge(signed[i], user, now, cfg).entry, result.entry.value))
              && (forall i :: 0 <= i < |signed| && Judge(signed[i], user, now, cfg).Take? ==>
                    Judge(signed[i], user, now, cfg).entry.purchased <= result.entry.value.purchased)
  {
    var valid: seq<Entry> := [];
    for n := 0 to |signed|
      invariant forall i :: 0 <= i < n ==> !Judge(signed[i], user, now, cfg).Refuse?
      invariant forall i :: 0 <= i < n && Judge(signed[i], user, now, cfg).Take? ==>
          Judge(signed[i], user, now, cfg).entry in valid
      invariant forall e :: e in valid ==> exists i :: 0 <= i < n && Judge(signed[i], user, now, cfg) == Take(e)
    {
      var judgement := Judge(signed[n], user, now, cfg);
      if judgement.Refuse? {
        return Refused(judgement.reason);
      }
      if judgement.Take? {
        valid := valid + [judgement.entry];
      }
    }
    if valid == [] {
      return Selected(None);
    }
    var latest := Latest(valid);
    result := Selected(Some(latest));
  }

  // The reconciliation that a selected transaction leads to.
  function RestoreOf(entry: Entry, user: UserId, now: Time): Event {
    Restore(entry.id, Some(user), now, Some(entry.expires))
  }

  // A restore takes effect: from any state with an open profile that has not seen an event as
  // new as the restore, nor this restore, the statements of the restore leave on the profile an
  // entitlement that is active at the time of the restore, by a transaction of this application
  // that belongs to no other account and was not revoked.
  lemma RestoreTakesEffect(signed: Signed, user: UserId, now: Time, cfg: Settings, s: State, d: nat, read: Time,
      write: Time)
    requires Judge(signed, user, now, cfg).Take? && d !in s.deliveries
    requires user in s.profiles && !s.profiles[user].deleted
    requires s.profiles[user].at.Some? ==> s.profiles[user].at.value < now
    requires s.profiles[user].id != Some(KeyOf(RestoreOf(Judge(signed, user, now, cfg).entry, user, now)))
    ensures var e := RestoreOf(Judge(signed, user, now, cfg).entry, user, now);
            var t := Exec(s, [Deliver(d, e)] + ([Step(d, read)] + ([Step(d, write)] + [])));
            && d in t.deliveries && t.deliveries[d].pc == Done(Updated) && user in t.profiles
            && var p := t.profiles[user];
               p.at == Some(now) && p.grant.isPro && p.grant.expires.Some? && p.grant.expires.value > now
    ensures signed.tx.bundle == cfg.bundle && signed.tx.environment == cfg.environment && !signed.tx.revoked
    ensures signed.tx.product.Some? && signed.tx.product.value in cfg.products
    ensures signed.tx.account == NoToken || signed.tx.account == For(user)
  {
    var e := RestoreOf(Judge(signed, user, now, cfg).entry, user, now);
    var s1 := Apply(s, Deliver(d, e));
    var s2 := Apply(s1, Step(d, read));
    ExecCons(s, Deliver(d, e), [Step(d, read)] + ([Step(d, write)] + []));
    ExecCons(s1, Step(d, read), [Step(d, write)] + []);
    assert s2.deliveries[d].pc == CompareAndSet(s.profiles[user].at, s.profiles[user].id, read);
    ExecCons(s2, Step(d, write), []);
  }
}
