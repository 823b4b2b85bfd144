/** Key and password steps combined into operations on credential sets. */
module CredentialsClient {

  import opened Wrappers
  import opened Secrets
  import opened Revocation
  import opened Environment
  import opened KeyCredential
  import PasswordCredential

  // ------------------------------------------------------- specification

  /** The IDs of the credentials that an operation must not revoke. */
  datatype Protected = Protected(keyIds: set<string>, passwordIds: set<string>)

  function ProtectedBy(tx: Transaction): Protected
    requires tx.latest.Some?
  {
    Protected(KeyIdsInUse(tx), PasswordCredential.PasswordIdsInUse(tx))
  }

  predicate ListRetains(before: seq<Credential>, after: seq<Credential>, ids: set<string>, at: int) {
    forall c :: c in before && c.keyId in ids && c.end > at ==> c in after
  }

  /** Every protected credential that has not expired stays registered. */
  predicate Retains(before: Option<Application>, after: Option<Application>, p: Protected, at: int) {
    && (before.Some? ==> after.Some? && after.value.clientId == before.value.clientId)
    && ListRetains(Keys(before), Keys(after), p.keyIds, at)
    && ListRetains(Passwords(before), Passwords(after), p.passwordIds, at)
  }

  /** Whatever credential has come has a new ID, so that none that was revoked comes back. */
  predicate ComesFrom(before: seq<Credential>, after: seq<Credential>, issued: Issued) {
    forall c :: c in after ==> c in before || c.keyId !in issued
  }

  /** What every operation does to the directory: time passes, calls fail, IDs are used up,
      what is protected is retained, and what comes is new. */
  ghost predicate Keeps(before: State, after: State, p: Protected) {
    && before.now <= after.now
    && before.failures <= after.failures
    && after.inUse == before.inUse && after.validApps == before.validApps
    && Extends(before.issued, after.issued)
    && Consistent(after.app, after.issued)
    && Retains(before.app, after.app, p, after.now)
    && ComesFrom(Keys(before.app), Keys(after.app), before.issued)
    && ComesFrom(Passwords(before.app), Passwords(after.app), before.issued)
  }

  lemma KeepsIsTransitive(a: State, b: State, c: State, p: Protected)
    requires Keeps(a, b, p) && Keeps(b, c, p)
    ensures Keeps(a, c, p)
  {
  }

  /** Protecting more retains no less. */
  lemma KeepsLess(a: State, b: State, p: Protected, q: Protected)
    requires Keeps(a, b, p) && q.keyIds <= p.keyIds && q.passwordIds <= p.passwordIds
    ensures Keeps(a, b, q)
  {
  }

  /** The whole of a credential set. */
  function KeyIdsOf(s: Set): set<string> {
    {s.current.certificate.keyId, s.next.certificate.keyId}
  }

  function PasswordIdsOf(s: Set): set<string> {
    {s.current.password.keyId, s.next.password.keyId}
  }

  predicate Lives(creds: seq<Credential>, id: string, issued: Issued, at: int) {
    id in issued && (issued[id].end > at ==> id in PasswordCredential.IdsOf(creds))
  }

  /** Every member of the set is registered, unless it has expired. */
  predicate SetLives(s: Set, state: State) {
    && (forall id :: id in KeyIdsOf(s) ==> Lives(Keys(state.app), id, state.issued, state.now))
    && (forall id :: id in PasswordIdsOf(s) ==> Lives(Passwords(state.app), id, state.issued, state.now))
  }

  /** The private keys and client secrets of the set are those of its IDs. */
  predicate SetOpens(s: Set, issued: Issued) {
    CredentialsOpen(s.current, issued) && CredentialsOpen(s.next, issued)
  }

  predicate CredentialsOpen(c: Credentials, issued: Issued) {
    Opens(c.certificate.jwk.material, c.certificate.keyId, issued) && Opens(c.password.clientSecret, c.password.keyId, issued)
  }

  lemma StillOpens(s: Set, before: Issued, after: Issued)
    requires SetOpens(s, before) && Extends(before, after)
    ensures SetOpens(s, after)
  {
  }

  lemma ListKeepsLiving(before: seq<Credential>, after: seq<Credential>, ids: set<string>, id: string,
                        issued: Issued, issued': Issued, at: int, at': int)
    requires AreIssued(before, issued) && Extends(issued, issued') && at <= at'
    requires ListRetains(before, after, ids, at') && id in ids
    requires Lives(before, id, issued, at)
    ensures Lives(after, id, issued', at')
  {
  }

  /** A protected set stays alive. */
  lemma ProtectedSetLives(s: Set, before: State, after: State, p: Protected)
    requires Consistent(before.app, before.issued) && Keeps(before, after, p) && SetLives(s, before)
    requires KeyIdsOf(s) <= p.keyIds && PasswordIdsOf(s) <= p.passwordIds
    ensures SetLives(s, after)
  {
  }

  predicate SetUnexpired(s: Set, app: Option<Application>, at: int) {
    && (forall id :: id in KeyIdsOf(s) ==> HasUnexpired(Keys(app), id, at))
    && (forall id :: id in PasswordIdsOf(s) ==> HasUnexpired(Passwords(app), id, at))
  }

  /** A set that lives, and of which no member has expired by then, is valid. */
  lemma LivingSetIsValid(s: Set, state: State, at: int)
    requires Consistent(state.app, state.issued) && SetLives(s, state) && state.now <= at
    requires forall id :: id in KeyIdsOf(s) + PasswordIdsOf(s) && id in state.issued ==> state.issued[id].end > at
    ensures SetUnexpired(s, state.app, at)
  {
  }

  /** The next credentials are new ones. */
  predicate IsRotated(latest: Set, s: Set, before: Issued) {
    s.current == latest.next && s.next.certificate.keyId !in before && s.next.password.keyId !in before
  }

  predicate IsNew(s: Set, before: Issued) {
    forall id :: id in KeyIdsOf(s) + PasswordIdsOf(s) ==> id !in before
  }

  // ---------------------------------------------------------- operations

  lemma PasswordsKept(before: State, after: State, revocable: set<string>, p: Protected)
    requires PasswordCredential.PasswordsChanged(before.app, after.app, revocable, before.issued)
    requires revocable !! p.passwordIds
    requires before.now <= after.now && before.failures <= after.failures
    requires after.inUse == before.inUse && after.validApps == before.validApps
    requires Extends(before.issued, after.issued) && Consistent(after.app, after.issued)
    ensures Keeps(before, after, p)
  {
  }

  lemma KeysKept(before: State, after: State, p: Protected)
    requires after.app == before.app || (KeysReplaced(before.app, after.app, Keys(after.app)) &&
                                         ListRetains(Keys(before.app), Keys(after.app), p.keyIds, after.now) &&
                                         ComesFrom(Keys(before.app), Keys(after.app), before.issued))
    requires before.now <= after.now && before.failures <= after.failures
    requires after.inUse == before.inUse && after.validApps == before.validApps
    requires Extends(before.issued, after.issued) && Consistent(after.app, after.issued)
    ensures Keeps(before, after, p)
  {
  }

  lemma RevokedAreUnprotected(creds: seq<Credential>, ids: set<string>)
    ensures PasswordCredential.IdsOf(Revoked(creds, ids)) !! ids
    ensures forall c :: c in creds && c.keyId in ids ==> c in Kept(creds, ids)
    ensures forall c :: c in Kept(creds, ids) ==> c in creds
  {
    KeptAndRevokedAreComplementary(creds, ids);
  }

  method AddPassword(w: World, ghost p: Protected) returns (r: Result<Password>)
    requires w.Valid()
    modifies w`app, w`issued, w`now, w`failures
    ensures w.Valid() && Keeps(old(w.View()), w.View(), p) && w.Counted(old(w.failures), r.Ok?)
    ensures w.app.Some? == old(w.app).Some? && Keys(w.app) == Keys(old(w.app))
    ensures r.Ok? ==>
              && r.value.clientSecret != "" && Opens(r.value.clientSecret, r.value.keyId, w.issued)
              && AreNew({r.value.keyId}, old(w.issued), w.issued)
              && Lives(Passwords(w.app), r.value.keyId, w.issued, w.now)
  {
    r := PasswordCredential.Add(w);
    PasswordsKept(old(w.View()), w.View(), {}, p);
  }

  method AddKeys(w: World, ghost p: Protected) returns (r: Result<(AddedKey, AddedKey)>)
    requires w.Valid()
    modifies w`app, w`issued, w`now, w`failures
    ensures w.Valid() && Keeps(old(w.View()), w.View(), p) && w.Counted(old(w.failures), r.Ok?)
    ensures w.app.Some? == old(w.app).Some? && Passwords(w.app) == Passwords(old(w.app))
    ensures r.Ok? ==>
              && AreNew({r.value.0.credential.keyId, r.value.1.credential.keyId}, old(w.issued), w.issued)
              && Lives(Keys(w.app), r.value.0.credential.keyId, w.issued, w.now)
              && Lives(Keys(w.app), r.value.1.credential.keyId, w.issued, w.now)
              && Opens(r.value.0.jwk.material, r.value.0.credential.keyId, w.issued)
              && Opens(r.value.1.jwk.material, r.value.1.credential.keyId, w.issued)
  {
    r := KeyCredential.Add(w);
    KeysKept(old(w.View()), w.View(), p);
    if r.Ok? {
      assert {r.value.0.credential, r.value.1.credential} <= (set c | c in Keys(w.app));
    }
  }

  method Add(w: World, ghost p: Protected) returns (r: Result<Set>)
    requires w.Valid()
    modifies w`app, w`issued, w`now, w`failures
    ensures w.Valid() && Keeps(old(w.View()), w.View(), p) && w.Counted(old(w.failures), r.Ok?)
    ensures w.app.Some? == old(w.app).Some?
    ensures r.Ok? ==>
              && HasNoEmptyField(r.value.current) && HasNoEmptyField(r.value.next)
              && IsNew(r.value, old(w.issued))
              && SetLives(r.value, w.View()) && SetOpens(r.value, w.issued)
  {
    var current :- AddPassword(w, p);
    label FirstAdded:
    ghost var q := Protected(p.keyIds, p.passwordIds + {current.keyId});
    var next :- AddPassword(w, q);
    KeepsLess(old@FirstAdded(w.View()), w.View(), q, p);
    KeepsIsTransitive(old(w.View()), old@FirstAdded(w.View()), w.View(), p);
    ListKeepsLiving(old@FirstAdded(Passwords(w.app)), Passwords(w.app), q.passwordIds, current.keyId,
                    old@FirstAdded(w.issued), w.issued, old@FirstAdded(w.now), w.now);
    label SecondAdded:
    var keys :- AddKeys(w, p);
    KeepsIsTransitive(old(w.View()), old@SecondAdded(w.View()), w.View(), p);
    r := Ok(Set(
      Credentials(Certificate(keys.0.credential.keyId, keys.0.jwk), current),
      Credentials(Certificate(keys.1.credential.keyId, keys.1.jwk), next)));
  }

  /** Nothing is left that was past by then. */
  predicate NoneExpired(app: Option<Application>, at: int) {
    && (forall c :: c in Keys(app) ==> c.end > at)
    && (forall c :: c in Passwords(app) ==> c.end >= at)
  }

  method DeleteExpired(w: World, ghost p: Protected) returns (ok: bool)
    requires w.Valid()
    modifies w`app, w`now, w`failures
    ensures w.Valid() && Keeps(old(w.View()), w.View(), p)
    ensures w.app.Some? == old(w.app).Some?
    ensures !ok ==> old(w.failures) < w.failures
    ensures w.failures == old(w.failures) ==> NoneExpired(w.app, old(w.now))
  {
    ok := DeleteExpiredKeys(w, p);
    if !ok {
      return;
    }
    label KeysDone:
    ok := DeleteExpiredPasswords(w, p);
    KeepsIsTransitive(old(w.View()), old@KeysDone(w.View()), w.View(), p);
  }

  method DeleteExpiredKeys(w: World, ghost p: Protected) returns (ok: bool)
    requires w.Valid()
    modifies w`app, w`now, w`failures
    ensures w.Valid() && Keeps(old(w.View()), w.View(), p) && w.Counted(old(w.failures), ok)
    ensures ok ==> forall c :: c in Keys(w.app) ==> c.end > old(w.now)
    ensures w.app.Some? == old(w.app).Some?
  {
    ok := KeyCredential.DeleteExpired(w);
    KeysKept(old(w.View()), w.View(), p);
  }

  method DeleteExpiredPasswords(w: World, ghost p: Protected) returns (ok: bool)
    requires w.Valid()
    modifies w`app, w`now, w`failures
    ensures w.Valid() && Keeps(old(w.View()), w.View(), p)
    ensures w.app.Some? == old(w.app).Some? && Keys(w.app) == Keys(old(w.app))
    ensures !ok ==> old(w.failures) < w.failures
    ensures w.failures == old(w.failures) ==> forall c :: c in Passwords(w.app) ==> c.end >= old(w.now)
  {
    ok := PasswordCredential.DeleteExpired(w);
    forall c | c in Passwords(old(w.app)) && c.end > w.now
      ensures c in Passwords(w.app)
    {
      assert c.keyId !in PasswordCredential.PastIds(Passwords(old(w.app)), w.now);
    }
  }

  /** Only what is kept is left. */
  predicate OnlyKept(before: Option<Application>, after: Option<Application>, p: Protected) {
    && Keys(after) == Kept(Keys(before), p.keyIds)
    && (forall c :: c in Passwords(after) ==>
          c in Passwords(before) && c.keyId !in PasswordCredential.IdsOf(Revoked(Passwords(before), p.passwordIds)))
  }

  /** So of those that are not in use at most one key and one password are left. */
  lemma OnlyKeptLeavesOne(before: Option<Application>, after: Option<Application>, p: Protected)
    requires OnlyKept(before, after, p)
    ensures LeavesOne(Keys(after), p.keyIds) && LeavesOne(Passwords(after), p.passwordIds)
  {
    KeptLeavesOne(Keys(before), p.keyIds);
    RevokingLeavesOne(Passwords(before), Passwords(after), p.passwordIds);
  }

  method DeleteUnused(w: World, tx: Transaction) returns (ok: bool)
    requires w.Valid() && tx.latest.Some?
    modifies w`app, w`failures
    ensures w.Valid() && Keeps(old(w.View()), w.View(), ProtectedBy(tx))
    ensures w.app.Some? == old(w.app).Some? && w.now == old(w.now)
    ensures !ok ==> old(w.failures) < w.failures
    ensures w.failures == old(w.failures) ==> OnlyKept(old(w.app), w.app, ProtectedBy(tx))
  {
    ghost var p := ProtectedBy(tx);
    ok := KeyCredential.DeleteUnused(w, tx);
    RevokedAreUnprotected(Keys(old(w.app)), p.keyIds);
    KeysKept(old(w.View()), w.View(), p);
    if !ok {
      return;
    }
    label KeysDone:
    ok := PasswordCredential.DeleteUnused(w, tx);
    RevokedAreUnprotected(Passwords(old@KeysDone(w.app)), p.passwordIds);
    PasswordsKept(old@KeysDone(w.View()), w.View(),
                  PasswordCredential.IdsOf(Revoked(Passwords(old@KeysDone(w.app)), p.passwordIds)), p);
    KeepsIsTransitive(old(w.View()), old@KeysDone(w.View()), w.View(), p);
  }

  /** Nothing is left, if no call fails. */
  method Purge(w: World) returns (ok: bool)
    requires w.Valid()
    modifies w`app, w`failures
    ensures w.Valid() && old(w.failures) <= w.failures && (!ok ==> old(w.failures) < w.failures)
    ensures w.app.Some? == old(w.app).Some?
    ensures w.failures == old(w.failures) ==> Keys(w.app) == [] && Passwords(w.app) == []
  {
    ok := PasswordCredential.Purge(w);
    if !ok {
      return;
    }
    ok := KeyCredential.Purge(w);
  }

  method RotatePassword(w: World, tx: Transaction) returns (r: Result<Password>)
    requires w.Valid() && tx.latest.Some?
    modifies w`app, w`issued, w`now, w`failures
    ensures w.Valid() && Keeps(old(w.View()), w.View(), ProtectedBy(tx))
    ensures w.app.Some? == old(w.app).Some? && Keys(w.app) == Keys(old(w.app))
    ensures r.Err? ==> old(w.failures) < w.failures
    ensures r.Ok? ==>
              && r.value.clientSecret != "" && Opens(r.value.clientSecret, r.value.keyId, w.issued)
              && AreNew({r.value.keyId}, old(w.issued), w.issued)
              && Lives(Passwords(w.app), r.value.keyId, w.issued, w.now)
  {
    ghost var ids := ProtectedBy(tx).passwordIds;
    r := PasswordCredential.Rotate(w, tx);
    RevokedAreUnprotected(Passwords(old(w.app)), ids);
    PasswordsKept(old(w.View()), w.View(), PasswordCredential.IdsOf(Revoked(Passwords(old(w.app)), ids)), ProtectedBy(tx));
  }

  method RotateKey(w: World, tx: Transaction) returns (r: Result<AddedKey>)
    requires w.Valid() && tx.latest.Some?
    modifies w`app, w`issued, w`now, w`failures
    ensures w.Valid() && Keeps(old(w.View()), w.View(), ProtectedBy(tx))
    ensures w.app.Some? == old(w.app).Some? && Passwords(w.app) == Passwords(old(w.app))
    ensures w.Counted(old(w.failures), r.Ok?)
    ensures r.Ok? ==>
              && AreNew({r.value.credential.keyId}, old(w.issued), w.issued)
              && Lives(Keys(w.app), r.value.credential.keyId, w.issued, w.now)
              && Opens(r.value.jwk.material, r.value.credential.keyId, w.issued)
  {
    ghost var p := ProtectedBy(tx);
    r := KeyCredential.Rotate(w, tx);
    RevokedAreUnprotected(Keys(old(w.app)), p.keyIds);
    KeysKept(old(w.View()), w.View(), p);
    if r.Ok? {
      assert r.value.credential in Keys(w.app);
    }
  }

  /** The next credentials become the current ones, and new ones become the next. */
  method Rotate(w: World, tx: Transaction) returns (r: Result<Set>)
    requires w.Valid() && tx.latest.Some?
    modifies w`app, w`issued, w`now, w`failures
    ensures w.Valid() && Keeps(old(w.View()), w.View(), ProtectedBy(tx))
    ensures w.app.Some? == old(w.app).Some?
    ensures r.Err? ==> old(w.failures) < w.failures
    ensures r.Ok? ==>
              && HasNoEmptyField(r.value.next)
              && IsRotated(tx.latest.value, r.value, old(w.issued))
              && (SetLives(tx.latest.value, old(w.View())) ==> SetLives(r.value, w.View()))
              && (SetOpens(tx.latest.value, old(w.issued)) ==> SetOpens(r.value, w.issued))
  {
    ghost var p := ProtectedBy(tx);
    var password :- RotatePassword(w, tx);
    label PasswordDone:
    var key :- RotateKey(w, tx);
    KeepsIsTransitive(old(w.View()), old@PasswordDone(w.View()), w.View(), p);
    if SetLives(tx.latest.value, old(w.View())) {
      ProtectedSetLives(tx.latest.value, old(w.View()), w.View(), p);
    }
    r := Ok(Set(tx.latest.value.next, Credentials(Certificate(key.credential.keyId, key.jwk), password)));
  }

  method Validate(w: World, existing: Set) returns (r: Result<bool>)
    requires w.Valid()
    modifies w`now, w`failures
    ensures w.Valid() && old(w.now) <= w.now && w.Counted(old(w.failures), r.Ok?)
    ensures r.Ok? ==> w.app.Some?
    ensures r == Ok(true) ==> SetUnexpired(existing, w.app, old(w.now))
    ensures r == Ok(false) ==> !SetUnexpired(existing, w.app, w.now)
  {
    var validPasswords :- PasswordCredential.Validate(w, existing);
    label PasswordsDone:
    var validKeys :- KeyCredential.Validate(w, existing);
    UnexpiredEarlier(existing, w.app, old(w.now), old@PasswordsDone(w.now));
    UnexpiredEarlier(existing, w.app, old@PasswordsDone(w.now), w.now);
    return Ok(validPasswords && validKeys);
  }

  lemma UnexpiredEarlier(s: Set, app: Option<Application>, from: int, until: int)
    requires from <= until
    ensures forall id :: HasUnexpired(Keys(app), id, until) ==> HasUnexpired(Keys(app), id, from)
    ensures forall id :: HasUnexpired(Passwords(app), id, until) ==> HasUnexpired(Passwords(app), id, from)
  {
  }
}
