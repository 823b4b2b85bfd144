/** Password credentials: they are added and removed one by one. A removal that fails
    is ignored, so that a revoked password may stay registered after that. */
module PasswordCredential {

  import opened Wrappers
  import opened Secrets
  import opened Revocation
  import opened Environment
  import opened KeyCredential
  import Strings

  // ------------------------------------------------------- specification

  function PasswordIdsInUse(tx: Transaction): set<string>
    requires tx.latest.Some?
  {
    (set id | id in tx.used.password)
    + {tx.latest.value.current.password.keyId, tx.latest.value.next.password.keyId}
  }

  function IdsOf(creds: seq<Credential>): set<string> {
    set c | c in creds :: c.keyId
  }

  /** Only passwords with the given IDs may be gone, only new ones may have come, and
      nothing else changes. */
  predicate PasswordsChanged(before: Option<Application>, after: Option<Application>, revocable: set<string>, issued: Issued) {
    && OnlyPasswordsDiffer(before, after)
    && (forall c :: c in Passwords(before) && c.keyId !in revocable ==> c in Passwords(after))
    && (forall c :: c in Passwords(after) ==> c in Passwords(before) || c.keyId !in issued)
  }

  // ---------------------------------------------------------- operations

  method InUseIds(tx: Transaction) returns (ids: set<string>)
    requires tx.latest.Some?
    ensures ids == PasswordIdsInUse(tx)
  {
    var list := tx.used.password + [tx.latest.value.current.password.keyId, tx.latest.value.next.password.keyId];
    list := Strings.RemoveDuplicates(list);
    ids := set id | id in list;
  }

  method Add(w: World) returns (r: Result<Password>)
    requires w.Valid()
    modifies w`app, w`issued, w`now, w`failures
    ensures w.Valid() && Extends(old(w.issued), w.issued) && old(w.now) <= w.now
    ensures w.Counted(old(w.failures), r.Ok?)
    ensures PasswordsChanged(old(w.app), w.app, {}, old(w.issued))
    ensures r.Ok? ==> forall c :: c in Passwords(w.app) ==> c in Passwords(old(w.app)) || c.keyId == r.value.keyId
    ensures r.Ok? ==>
              && r.value.clientSecret != ""
              && AreNew({r.value.keyId}, old(w.issued), w.issued)
              && r.value.keyId in IdsOf(Passwords(w.app))
              && Opens(r.value.clientSecret, r.value.keyId, w.issued)
  {
    var added := w.AddPassword(AZURERATOR_PREFIX + "-");
    AddedOneAtMost(old(w.app), w.app, old(w.issued));
    if added.Err? {
      return Err;
    }
    assert added.value.0 in Passwords(w.app);
    return Ok(Password(added.value.0.keyId, added.value.1));
  }

  lemma AddedOneAtMost(before: Option<Application>, after: Option<Application>, issued: Issued)
    requires after == before || PasswordAdded(before, after, issued)
    ensures PasswordsChanged(before, after, {}, issued)
  {
  }

  /** Every removal is attempted, whatever becomes of the others. */
  method RemoveAll(w: World, creds: seq<Credential>)
    requires w.Valid()
    modifies w`app, w`failures
    ensures w.Valid() && old(w.failures) <= w.failures
    ensures PasswordsChanged(old(w.app), w.app, IdsOf(creds), old(w.issued))
    ensures forall c :: c in Passwords(w.app) ==> c in Passwords(old(w.app))
    ensures w.failures == old(w.failures) ==> forall c :: c in Passwords(w.app) ==> c.keyId !in IdsOf(creds)
  {
    for i := 0 to |creds|
      invariant w.Valid() && old(w.failures) <= w.failures
      invariant w.failures == old(w.failures) ==> forall c, j :: c in Passwords(w.app) && 0 <= j < i ==> c.keyId != creds[j].keyId
      invariant PasswordsChanged(old(w.app), w.app, IdsOf(creds), old(w.issued))
      invariant forall c :: c in Passwords(w.app) ==> c in Passwords(old(w.app))
    {
      WithoutMembers(Passwords(w.app), creds[i].keyId);
      assert creds[i].keyId in IdsOf(creds);
      w.RemovePassword(creds[i].keyId);
    }
  }

  method DeleteExpired(w: World) returns (ok: bool)
    requires w.Valid()
    modifies w`app, w`now, w`failures
    ensures w.Valid() && old(w.now) <= w.now && old(w.failures) <= w.failures
    ensures OnlyPasswordsDiffer(old(w.app), w.app)
    ensures forall c :: c in Passwords(w.app) ==> c in Passwords(old(w.app))
    ensures forall c :: c in Passwords(old(w.app)) && c.keyId !in PastIds(Passwords(old(w.app)), w.now) ==> c in Passwords(w.app)
    ensures !ok ==> w.app == old(w.app) && old(w.failures) < w.failures
    ensures w.failures == old(w.failures) ==> forall c :: c in Passwords(w.app) ==> c.end >= old(w.now)
  {
    var app := w.GetApplication();
    if app.Err? {
      return false;
    }
    var creds := app.value.passwords;
    for i := 0 to |creds|
      invariant w.Valid() && old(w.now) <= w.now && old(w.failures) <= w.failures
      invariant w.failures == old(w.failures) ==> forall c :: c in Passwords(w.app) && c in creds[..i] ==> c.end >= old(w.now)
      invariant OnlyPasswordsDiffer(old(w.app), w.app)
      invariant forall c :: c in Passwords(w.app) ==> c in creds
      invariant forall c :: c in creds && c.keyId !in PastIds(creds, w.now) ==> c in Passwords(w.app)
    {
      ghost var before := w.now;
      var now := w.Now();
      PastIdsGrow(creds, before, now);
      if creds[i].end < now {
        assert creds[i].keyId in PastIds(creds, now);
        WithoutMembers(Passwords(w.app), creds[i].keyId);
        w.RemovePassword(creds[i].keyId);
      }
      assert creds[..i + 1] == creds[..i] + [creds[i]];
    }
    assert creds[..|creds|] == creds;
    return true;
  }

  function PastIds(creds: seq<Credential>, at: int): set<string> {
    set c | c in creds && c.end < at :: c.keyId
  }

  lemma PastIdsGrow(creds: seq<Credential>, from: int, until: int)
    requires from <= until
    ensures PastIds(creds, from) <= PastIds(creds, until)
  {
  }

  function RevokedIds(app: Option<Application>, tx: Transaction): set<string>
    requires tx.latest.Some?
  {
    IdsOf(Revoked(Passwords(app), PasswordIdsInUse(tx)))
  }

  method DeleteUnused(w: World, tx: Transaction) returns (ok: bool)
    requires w.Valid() && tx.latest.Some?
    modifies w`app, w`failures
    ensures w.Valid() && old(w.failures) <= w.failures
    ensures PasswordsChanged(old(w.app), w.app, RevokedIds(old(w.app), tx), old(w.issued))
    ensures forall c :: c in Passwords(w.app) ==> c in Passwords(old(w.app))
    ensures !ok ==> w.app == old(w.app) && old(w.failures) < w.failures
    ensures w.failures == old(w.failures) ==> forall c :: c in Passwords(w.app) ==> c.keyId !in RevokedIds(old(w.app), tx)
  {
    var app := w.GetApplication();
    if app.Err? {
      return false;
    }
    var ids := InUseIds(tx);
    var revoked := RevocationCandidates(app.value.passwords, ids);
    RemoveAll(w, revoked);
    return true;
  }

  method Rotate(w: World, tx: Transaction) returns (r: Result<Password>)
    requires w.Valid() && tx.latest.Some?
    modifies w`app, w`issued, w`now, w`failures
    ensures w.Valid() && Extends(old(w.issued), w.issued) && old(w.now) <= w.now
    ensures old(w.failures) <= w.failures && (r.Err? ==> old(w.failures) < w.failures)
    ensures PasswordsChanged(old(w.app), w.app, RevokedIds(old(w.app), tx), old(w.issued))
    ensures r.Ok? ==>
              && r.value.clientSecret != ""
              && AreNew({r.value.keyId}, old(w.issued), w.issued)
              && r.value.keyId in IdsOf(Passwords(w.app))
              && Opens(r.value.clientSecret, r.value.keyId, w.issued)
    ensures r.Ok? && w.failures == old(w.failures) ==>
              forall c :: c in Passwords(w.app) ==> c.keyId !in RevokedIds(old(w.app), tx) || c.keyId == r.value.keyId
  {
    var app :- w.GetApplication();
    var ids := InUseIds(tx);
    var revoked := RevocationCandidates(app.passwords, ids);
    RemoveAll(w, revoked);
    r := Add(w);
  }

  /** No password is left, if no call fails. */
  method Purge(w: World) returns (ok: bool)
    requires w.Valid()
    modifies w`app, w`failures
    ensures w.Valid() && old(w.failures) <= w.failures && (!ok ==> old(w.failures) < w.failures)
    ensures OnlyPasswordsDiffer(old(w.app), w.app)
    ensures forall c :: c in Passwords(w.app) ==> c in Passwords(old(w.app))
    ensures w.failures == old(w.failures) ==> Passwords(w.app) == []
  {
    var app := w.GetApplication();
    if app.Err? {
      return false;
    }
    RemoveAll(w, app.value.passwords);
    ok := true;
    assert forall c :: c in app.value.passwords ==> c.keyId in IdsOf(app.value.passwords);
    assert Passwords(w.app) == [] || Passwords(w.app)[0] in Passwords(w.app);
  }

  method Validate(w: World, existing: Set) returns (r: Result<bool>)
    requires w.Valid()
    modifies w`now, w`failures
    ensures w.Valid() && old(w.now) <= w.now && w.Counted(old(w.failures), r.Ok?)
    ensures r.Ok? ==> w.app.Some?
    ensures r == Ok(true) ==>
              && HasUnexpired(Passwords(w.app), existing.current.password.keyId, old(w.now))
              && HasUnexpired(Passwords(w.app), existing.next.password.keyId, old(w.now))
    ensures r == Ok(false) ==>
              !(HasUnexpired(Passwords(w.app), existing.current.password.keyId, w.now) &&
                HasUnexpired(Passwords(w.app), existing.next.password.keyId, w.now))
  {
    var app :- w.GetApplication();
    var valid := ValidateCredentials(w, app.passwords, existing.current.password.keyId, existing.next.password.keyId);
    return Ok(valid);
  }
}
