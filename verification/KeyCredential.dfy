/** Key credentials: every operation reads the list, and writes a whole list back. */
module KeyCredential {

  import opened Wrappers
  import opened Secrets
  import opened Revocation
  import opened Environment
  import Strings

  /** What a reconcile knows about the secrets before it starts. */
  datatype Transaction = Transaction(latest: Option<Set>, used: KeyIds)

  datatype AddedKey = AddedKey(credential: Credential, jwk: Jwk)

  // ------------------------------------------------------- specification

  function KeyIdsInUse(tx: Transaction): set<string>
    requires tx.latest.Some?
  {
    (set id | id in tx.used.certificate)
    + {tx.latest.value.current.certificate.keyId, tx.latest.value.next.certificate.keyId}
  }

  predicate HasUnexpired(creds: seq<Credential>, keyId: string, at: int) {
    exists c :: c in creds && c.keyId == keyId && c.end > at
  }

  /** What passing time lets one remove: nothing that lasts, everything that is past. */
  ghost predicate ExpiredRemoved(before: seq<Credential>, after: seq<Credential>, from: int, until: int) {
    && (forall c :: c in after ==> c in before && c.end > from)
    && (forall c :: c in before && c.end > until ==> c in after)
  }

  /** The keys are replaced by the given ones, and nothing else changes. */
  predicate KeysReplaced(before: Option<Application>, after: Option<Application>, keys: seq<Credential>) {
    before.Some? && after == Some(before.value.(keys := keys))
  }

  // ---------------------------------------------------------- operations

  method InUseIds(tx: Transaction) returns (ids: set<string>)
    requires tx.latest.Some?
    ensures ids == KeyIdsInUse(tx)
  {
    var list := tx.used.certificate
    + [tx.latest.value.current.certificate.keyId, tx.latest.value.next.certificate.keyId];
    list := Strings.RemoveDuplicates(list);
    ids := set id | id in list;
  }

  method NewKey(w: World) returns (key: AddedKey)
    requires w.Valid()
    modifies w`issued, w`now
    ensures w.Valid() && Extends(old(w.issued), w.issued) && old(w.now) <= w.now
    ensures key.credential.keyId != "" && key.credential.keyId !in old(w.issued)
    ensures key.credential.keyId in w.issued && w.issued[key.credential.keyId] == Issue(key.credential.end, key.jwk.material)
    ensures IsManaged(key.credential)
  {
    var start := w.Now();
    var lifetime: nat, material: string := *, *;
    var id := w.NewKeyId(start + lifetime, material);
    key := AddedKey(Credential(id, Some(AZURERATOR_PREFIX + "-"), start, start + lifetime), Jwk(material));
  }

  method Add(w: World) returns (r: Result<(AddedKey, AddedKey)>)
    requires w.Valid()
    modifies w`app, w`issued, w`now, w`failures
    ensures w.Valid() && Extends(old(w.issued), w.issued) && old(w.now) <= w.now
    ensures w.Counted(old(w.failures), r.Ok?)
    ensures w.app == old(w.app) ||
            exists k1, k2 :: KeysReplaced(old(w.app), w.app, Keys(old(w.app)) + [k1, k2]) &&
                             k1.keyId !in old(w.issued) && k2.keyId !in old(w.issued)
    ensures r.Ok? ==>
              && KeysReplaced(old(w.app), w.app, Keys(old(w.app)) + [r.value.0.credential, r.value.1.credential])
              && AreNew({r.value.0.credential.keyId, r.value.1.credential.keyId}, old(w.issued), w.issued)
              && r.value.0.credential.keyId != r.value.1.credential.keyId
              && Opens(r.value.0.jwk.material, r.value.0.credential.keyId, w.issued)
              && Opens(r.value.1.jwk.material, r.value.1.credential.keyId, w.issued)
  {
    var actual :- w.GetApplication();
    var current := NewKey(w);
    var next := NewKey(w);
    var keys := actual.keys + [current.credential, next.credential];
    var ok := w.PatchKeys(keys, false);
    assert KeysReplaced(old(w.app), Some(actual.(keys := keys)), Keys(old(w.app)) + [current.credential, next.credential]);
    return if ok then Ok((current, next)) else Err;
  }

  predicate AreNew(ids: set<string>, before: Issued, after: Issued) {
    forall id :: id in ids ==> id != "" && id !in before && id in after
  }

  method DeleteExpired(w: World) returns (ok: bool)
    requires w.Valid()
    modifies w`app, w`now, w`failures
    ensures w.Valid() && old(w.now) <= w.now && w.Counted(old(w.failures), ok)
    ensures w.app == old(w.app) ||
            exists keys :: KeysReplaced(old(w.app), w.app, keys) && ExpiredRemoved(Keys(old(w.app)), keys, old(w.now), w.now)
    ensures ok ==> old(w.app).Some? && w.app.Some? &&
                   ExpiredRemoved(Keys(old(w.app)), Keys(w.app), old(w.now), w.now)
  {
    var actual := w.GetApplication();
    if actual.Err? {
      return false;
    }
    var keys := actual.value.keys;
    var desired: seq<Credential> := [];
    for i := 0 to |keys|
      invariant w.app == old(w.app) && old(w.now) <= w.now && w.failures == old(w.failures)
      invariant forall c :: c in desired ==> c in keys && c.end > old(w.now)
      invariant forall c :: c in keys[..i] && c.end > w.now ==> c in desired
    {
      var now := w.Now();
      if keys[i].end > now {
        desired := desired + [keys[i]];
      }
      assert keys[..i + 1] == keys[..i] + [keys[i]];
    }
    assert keys[..|keys|] == keys;
    ok := w.PatchKeys(desired, true);
    assert KeysReplaced(old(w.app), Some(actual.value.(keys := desired)), desired);
  }

  method DeleteUnused(w: World, tx: Transaction) returns (ok: bool)
    requires w.Valid() && tx.latest.Some?
    modifies w`app, w`failures
    ensures w.Valid() && w.Counted(old(w.failures), ok)
    ensures w.app == old(w.app) || KeysReplaced(old(w.app), w.app, Kept(Keys(old(w.app)), KeyIdsInUse(tx)))
    ensures ok ==> old(w.app).Some? && KeysReplaced(old(w.app), w.app, Kept(Keys(old(w.app)), KeyIdsInUse(tx)))
  {
    var ids := InUseIds(tx);
    var actual := w.GetApplication();
    if actual.Err? {
      return false;
    }
    var keys := FilterRevokedKeys(actual.value.keys, ids);
    ok := w.PatchKeys(keys, false);
  }

  method Rotate(w: World, tx: Transaction) returns (r: Result<AddedKey>)
    requires w.Valid() && tx.latest.Some?
    modifies w`app, w`issued, w`now, w`failures
    ensures w.Valid() && Extends(old(w.issued), w.issued) && old(w.now) <= w.now
    ensures w.Counted(old(w.failures), r.Ok?)
    ensures w.app == old(w.app) ||
            exists k :: KeysReplaced(old(w.app), w.app, Kept(Keys(old(w.app)), KeyIdsInUse(tx)) + [k]) && k.keyId !in old(w.issued)
    ensures r.Ok? ==>
              && KeysReplaced(old(w.app), w.app, Kept(Keys(old(w.app)), KeyIdsInUse(tx)) + [r.value.credential])
              && AreNew({r.value.credential.keyId}, old(w.issued), w.issued)
              && Opens(r.value.jwk.material, r.value.credential.keyId, w.issued)
  {
    var ids := InUseIds(tx);
    var actual :- w.GetApplication();
    var keys := FilterRevokedKeys(actual.keys, ids);
    var key := NewKey(w);
    keys := keys + [key.credential];
    var ok := w.PatchKeys(keys, false);
    assert KeysReplaced(old(w.app), Some(actual.(keys := keys)), Kept(Keys(old(w.app)), ids) + [key.credential]);
    return if ok then Ok(key) else Err;
  }

  method Purge(w: World) returns (ok: bool)
    requires w.Valid()
    modifies w`app, w`failures
    ensures w.Valid() && w.Counted(old(w.failures), ok)
    ensures w.app == old(w.app) || KeysReplaced(old(w.app), w.app, [])
    ensures ok ==> KeysReplaced(old(w.app), w.app, [])
  {
    ok := w.PatchKeys([], true);
  }

  /** Each credential is held against a clock that goes on running. */
  method ValidateCredentials(w: World, creds: seq<Credential>, currentId: string, nextId: string) returns (valid: bool)
    modifies w`now
    ensures old(w.now) <= w.now
    ensures valid ==> HasUnexpired(creds, currentId, old(w.now)) && HasUnexpired(creds, nextId, old(w.now))
    ensures HasUnexpired(creds, currentId, w.now) && HasUnexpired(creds, nextId, w.now) ==> valid
  {
    var currentIsValid, nextIsValid := false, false;
    for i := 0 to |creds|
      invariant old(w.now) <= w.now
      invariant currentIsValid ==> HasUnexpired(creds, currentId, old(w.now))
      invariant nextIsValid ==> HasUnexpired(creds, nextId, old(w.now))
      invariant !currentIsValid ==> forall j :: 0 <= j < i && creds[j].keyId == currentId ==> creds[j].end <= w.now
      invariant !nextIsValid ==> forall j :: 0 <= j < i && creds[j].keyId == nextId ==> creds[j].end <= w.now
    {
      var now := w.Now();
      var notExpired := creds[i].end > now;
      if creds[i].keyId == currentId && notExpired {
        currentIsValid := true;
      }
      if creds[i].keyId == nextId && notExpired {
        nextIsValid := true;
      }
    }
    return currentIsValid && nextIsValid;
  }

  method Validate(w: World, existing: Set) returns (r: Result<bool>)
    requires w.Valid()
    modifies w`now, w`failures
    ensures w.Valid() && old(w.now) <= w.now && w.Counted(old(w.failures), r.Ok?)
    ensures r.Ok? ==> w.app.Some?
    ensures r == Ok(true) ==>
              && HasUnexpired(Keys(w.app), existing.current.certificate.keyId, old(w.now))
              && HasUnexpired(Keys(w.app), existing.next.certificate.keyId, old(w.now))
    ensures r == Ok(false) ==>
              !(HasUnexpired(Keys(w.app), existing.current.certificate.keyId, w.now) &&
                HasUnexpired(Keys(w.app), existing.next.certificate.keyId, w.now))
  {
    var app :- w.GetApplication();
    var valid := ValidateCredentials(w, app.keys, existing.current.certificate.keyId, existing.next.certificate.keyId);
    return Ok(valid);
  }
}
