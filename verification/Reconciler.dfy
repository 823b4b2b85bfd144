/** One reconcile of one resource, with every remote call free to fail. */
module Reconciler {

  import opened Wrappers
  import opened Annotations
  import opened Secrets
  import opened Revocation
  import opened Environment
  import opened KeyCredential
  import opened CredentialsClient
  import opened Options
  import Completion

  const FINALIZER := "azure.nais.io/finalizer"
  const OLD_FINALIZER := "finalizer.azurerator.nais.io"

  // ------------------------------------------------------- specification

  /** What became of a reconcile. `installed` is the credential set that was written to the
      resource's secret; the reconcile is completed once its annotations are settled. */
  datatype Report =
    | Unprepared
    | Orphaned
    | Finalized
    | Processed(installed: Option<Set>, completed: bool)

  function DataKeysOf(r: Resource): DataKeys {
    NewDataKeys(r.spec.keyPrefix)
  }

  /** The set that the secret of the given name holds. */
  function SetIn(secrets: map<string, Data>, name: string, keys: DataKeys): Result<Option<Set>> {
    if name != "" && name in secrets then ExtractSet(secrets[name], keys) else Ok(None)
  }

  function LatestSet(s: State): Option<Set>
    requires s.resource.Some?
  {
    var r := s.resource.value;
    match SetIn(s.secrets, r.status.secretName, DataKeysOf(r))
    case Ok(latest) => latest
    case Err => None
  }

  /** The current credentials of the named secrets. */
  function CurrentIn(secrets: map<string, Data>, names: set<string>, key: string): set<string> {
    set n | n in names && n in secrets && NonEmptyValue(secrets[n], key).Some? :: NonEmptyValue(secrets[n], key).value
  }

  /** The current credentials of the secrets in use, and the latest set. */
  function ProtectedIn(s: State): Protected
    requires s.resource.Some?
  {
    var keys, latest := DataKeysOf(s.resource.value), LatestSet(s);
    Protected(
      CurrentIn(s.secrets, s.inUse, keys.current.certificateKeyId) + (if latest.Some? then KeyIdsOf(latest.value) else {}),
      CurrentIn(s.secrets, s.inUse, keys.current.passwordKeyId) + (if latest.Some? then PasswordIdsOf(latest.value) else {}))
  }

  /** Only unused secrets other than the resource's own may go, and only its own may change. */
  ghost predicate OthersKept(before: map<string, Data>, after: map<string, Data>, inUse: set<string>, own: string) {
    && (forall n :: n in before && (n in inUse || n == own) ==> n in after)
    && (forall n :: n in after && n != own ==> n in before && after[n] == before[n])
  }

  /** A secret is the same, or absent, in both. */
  predicate SameAt(before: map<string, Data>, after: map<string, Data>, name: string) {
    (name in before <==> name in after) && (name in before ==> after[name] == before[name])
  }

  /** Why the latest set may be replaced by an altogether new one. */
  ghost predicate LatestIsInvalid(s: State, cfg: Config, at: int)
    requires s.resource.Some?
  {
    var r, latest := s.resource.value, LatestSet(s);
    || latest.None?
    || HasExpiredSecrets(r, cfg.maxAge, at)
    || !Contains(r.status.tenant, cfg.tenantId)
    || !SetUnexpired(latest.value, s.app, at)
  }

  ghost predicate NeedsSynchronization(s: State, cfg: Config, at: int)
    requires s.resource.Some?
  {
    var r := s.resource.value;
    HashChanged(r) || SecretNameChanged(r) || HasResynchronize(r) || HasRotate(r) || LatestIsInvalid(s, cfg, at)
  }

  /** Somebody has asked for a rotation, by an annotation or by another name for the secret. */
  predicate AskedToRotate(r: Resource) {
    ROTATE_KEY in Items(r) || r.status.secretName != r.spec.secretName
  }

  /** The latest set is written again; it was valid, and nobody has asked for another one. */
  ghost predicate IsReused(before: State, cfg: Config, s: Set)
    requires before.resource.Some?
  {
    LatestSet(before) == Some(s) && !AskedToRotate(before.resource.value) && !LatestIsInvalid(before, cfg, before.now)
  }

  /** Another set is written: the latest one rotated, as was asked for and as it was valid, or an
      altogether new one, as the latest is no longer valid. */
  ghost predicate IsReplaced(before: State, at: int, cfg: Config, s: Set)
    requires before.resource.Some?
  {
    var latest := LatestSet(before);
    || (&& AskedToRotate(before.resource.value) && !LatestIsInvalid(before, cfg, before.now)
        && IsRotated(latest.value, s, before.issued))
    || (IsNew(s, before.issued) && LatestIsInvalid(before, cfg, at))
  }

  /** The secret, if it holds a set, holds the private keys and client secrets that go with its IDs. */
  predicate LatestOpens(s: State)
    requires s.resource.Some?
  {
    LatestSet(s).Some? ==> SetOpens(LatestSet(s).value, s.issued)
  }

  /** A set that is written to the secret, for a reason, is registered, and can be used. */
  ghost predicate IsInstalled(before: State, after: State, cfg: Config, s: Set)
    requires before.resource.Some?
  {
    && SetLives(s, after) && (LatestOpens(before) ==> SetOpens(s, after.issued))
    && NeedsSynchronization(before, cfg, after.now)
    && (IsReused(before, cfg, s) || IsReplaced(before, after.now, cfg, s))
  }

  function DataOf(secrets: map<string, Data>, name: string): Data {
    if name in secrets then secrets[name] else map[]
  }

  /** What is written beside the credentials: the app that the directory has, and where to get tokens. */
  function MetadataOf(clientId: string, validApps: string, cfg: Config): Metadata {
    Metadata(clientId, validApps, cfg.tenantId, cfg.endpoints.wellKnownUrl, cfg.endpoints.issuer, cfg.endpoints.jwksUri,
             cfg.endpoints.tokenEndpoint)
  }

  /** The secret holds the set and the metadata, and whatever it held beside these entries. */
  predicate IsWritten(before: map<string, Data>, after: map<string, Data>, name: string, set_: Set, app: Metadata, keyPrefix: string) {
    && name in after
    && ExtractSet(after[name], NewDataKeys(keyPrefix)) == Ok(Some(set_))
    && IsSecretOf(after[name], SecretPrefix(keyPrefix), app, set_)
    && OtherEntries(after[name], NewDataKeys(keyPrefix)) == OtherEntries(DataOf(before, name), NewDataKeys(keyPrefix))
  }

  /** The secret is that of the app that is there in the end. */
  predicate IsWrittenFor(before: State, after: State, cfg: Config, set_: Set)
    requires before.resource.Some?
  {
    var spec := before.resource.value.spec;
    && after.app.Some?
    && IsWritten(before.secrets, after.secrets, spec.secretName, set_,
                 MetadataOf(after.app.value.clientId, before.validApps, cfg), spec.keyPrefix)
  }

  function CurrentKeyIds(s: State): set<string>
    requires s.resource.Some?
  {
    CurrentIn(s.secrets, s.inUse, DataKeysOf(s.resource.value).current.certificateKeyId)
  }

  function CurrentPasswordIds(s: State): set<string>
    requires s.resource.Some?
  {
    CurrentIn(s.secrets, s.inUse, DataKeysOf(s.resource.value).current.passwordKeyId)
  }

  predicate AreIds(keyIds: KeyIds, certificates: set<string>, passwords: set<string>) {
    && (set id | id in keyIds.certificate) == certificates
    && (set id | id in keyIds.password) == passwords
  }

  /** What the status tells of a set: the IDs in use, and, if another set was written, its own as
      well, and the time. */
  ghost predicate IsTold(before: State, at: int, cfg: Config, s: Set, rotationTime: Option<int>, keyIds: KeyIds)
    requires before.resource.Some?
  {
    || (&& IsReused(before, cfg, s)
        && rotationTime == before.resource.value.status.rotationTime
        && AreIds(keyIds, CurrentKeyIds(before), CurrentPasswordIds(before)))
    || (&& IsReplaced(before, at, cfg, s)
        && rotationTime.Some? && before.now <= rotationTime.value <= at
        && AreIds(keyIds, CurrentKeyIds(before) + {s.current.certificate.keyId},
                  CurrentPasswordIds(before) + {s.current.password.keyId}))
  }

  ghost predicate IsReported(before: State, at: int, cfg: Config, s: Set, status: Status)
    requires before.resource.Some?
  {
    var spec := before.resource.value.spec;
    && status.secretName == spec.secretName && status.hash == spec.hash && status.tenant == cfg.tenantId
    && IsTold(before, at, cfg, s, status.rotationTime, status.keyIds)
  }

  /** The app is to be brought to the spec: it is not there yet, or the spec has changed, or somebody has
      asked for it. */
  predicate IsUpdateDue(before: State)
    requires before.resource.Some?
  {
    before.app.None? || HashChanged(before.resource.value) || HasResynchronize(before.resource.value)
  }

  /** If this is due, the app has been brought to the spec; otherwise it is as before. */
  predicate IsApplied(before: State, applied: string)
    requires before.resource.Some?
  {
    applied == if IsUpdateDue(before) then before.resource.value.spec.hash else before.applied
  }

  /** The same, but perhaps not done yet. */
  predicate MayBeApplied(before: State, applied: string)
    requires before.resource.Some?
  {
    applied == before.applied || IsApplied(before, applied)
  }

  ghost predicate ProcessedEffect(before: State, after: State, cfg: Config, installed: Option<Set>, completed: bool)
    requires before.resource.Some?
  {
    var r := before.resource.value;
    var own := r.spec.secretName;
    && FINALIZER in r.finalizers && !r.deleting && !IsIgnored(r, cfg)
    && Keeps(before, after, ProtectedIn(before))
    && OthersKept(before.secrets, after.secrets, before.inUse, own)
    && (installed.None? ==> SameAt(before.secrets, after.secrets, own) && !completed)
    && (installed.Some? ==>
          && IsInstalled(before, after, cfg, installed.value)
          && IsWrittenFor(before, after, cfg, installed.value))
    && after.resource.Some?
    && after.resource.value.(status := r.status, annotations := r.annotations) == r
    && (after.resource.value.status == r.status ||
        (installed.Some? && IsApplied(before, after.applied) &&
         IsReported(before, after.now, cfg, installed.value, after.resource.value.status)))
    && MayBeApplied(before, after.applied)
    && (completed ==>
          && IsApplied(before, after.applied)
          && IsReported(before, after.now, cfg, installed.value, after.resource.value.status)
          && Items(after.resource.value) == Completion.Processed(Items(r), Items(r)))
    && (!completed ==> after.resource.value.annotations == r.annotations)
    && (after.failures == before.failures && NeedsSynchronization(before, cfg, before.now) ==> completed)
  }

  /** Nobody has asked for a rotation, and the latest set is valid all the time. */
  ghost predicate LeavesSet(before: State, cfg: Config, at: int)
    requires before.resource.Some?
  {
    !AskedToRotate(before.resource.value) && !LatestIsInvalid(before, cfg, at)
  }

  /** Only secrets in use, and the resource's own, are left. */
  predicate OnlyUsedLeft(secrets: map<string, Data>, inUse: set<string>, own: string) {
    forall n :: n in secrets ==> n in inUse || n == own
  }

  /** What was past is gone. */
  predicate PastAreGone(before: State, app: Option<Application>) {
    && (forall c :: c in Keys(before.app) && c in Keys(app) ==> c.end > before.now)
    && (forall c :: c in Passwords(before.app) && c in Passwords(app) ==> c.end >= before.now)
  }

  /** What has been cleaned up: what is past, the secrets that no pod uses, and, if this is set up and
      the set is left as it is, the credentials that no pod uses. */
  ghost predicate IsCleaned(before: State, after: State, cfg: Config)
    requires before.resource.Some?
  {
    && PastAreGone(before, after.app)
    && OnlyUsedLeft(after.secrets, before.inUse, before.resource.value.spec.secretName)
    && (cfg.cleanup && LeavesSet(before, cfg, after.now) ==>
          && LeavesOne(Keys(after.app), ProtectedIn(before).keyIds)
          && LeavesOne(Passwords(after.app), ProtectedIn(before).passwordIds))
  }

  ghost predicate CleanedUp(before: State, after: State, cfg: Config)
    requires before.resource.Some?
  {
    after.failures == before.failures ==> IsCleaned(before, after, cfg)
  }

  /** Registering our finalizer, or finalizing and then taking it off. */
  ghost predicate FinalizedEffect(before: State, after: State)
    requires before.resource.Some?
  {
    var r, done := before.resource.value, after.failures == before.failures;
    && after == before.(app := after.app, now := after.now, resource := after.resource, failures := after.failures)
    && before.now <= after.now && before.failures <= after.failures && Consistent(after.app, after.issued)
    && if r.deleting && (FINALIZER in r.finalizers || OLD_FINALIZER in r.finalizers) then
         var released := WithFinalizers(r, r.finalizers - {FINALIZER, OLD_FINALIZER});
         && (before.app.None? ==> after.app.None?)
         && (PRESERVE_KEY in Items(r) ==> after.app.Some? == before.app.Some?)
         && (after.resource == before.resource || after.resource == released)
         && (done ==> after.resource == released)
         && (after.resource == released && PRESERVE_KEY !in Items(r) ==> after.app.None?)
         && (done && PRESERVE_KEY in Items(r) ==> Keys(after.app) == [] && Passwords(after.app) == [])
       else
         var registered := WithFinalizers(r, r.finalizers + {FINALIZER});
         && FINALIZER !in r.finalizers
         && after.app == before.app
         && (after.resource == before.resource || after.resource == registered)
         && (done ==> after.resource == registered)
  }

  ghost predicate Reconciled(before: State, after: State, cfg: Config, report: Report) {
    match report
    case Unprepared =>
      && after == before.(now := after.now, failures := after.failures)
      && before.now <= after.now && before.failures <= after.failures
      && (after.failures == before.failures ==>
            before.resource.None? ||
            SetIn(before.secrets, before.resource.value.status.secretName, DataKeysOf(before.resource.value)).Err?)
    case Orphaned =>
      && before.resource.Some? && IsIgnored(before.resource.value, cfg)
      && after == before.(now := after.now, app := after.app, failures := after.failures)
      && before.now <= after.now && before.failures <= after.failures
      && (after.app == before.app || (after.app.None? && cfg.cleanupOrphans))
      && (after.failures == before.failures && cfg.cleanupOrphans ==> after.app.None?)
    case Finalized =>
      before.resource.Some? && !IsIgnored(before.resource.value, cfg) && FinalizedEffect(before, after)
    case Processed(installed, completed) =>
      before.resource.Some? && ProcessedEffect(before, after, cfg, installed, completed) && CleanedUp(before, after, cfg)
  }

  // --------------------------------------------------------- preparation

  datatype Prepared = Prepared(
    resource: Resource, keys: DataKeys, lists: Lists, tx: Transaction, options: Flags, at: int, found: bool, clientId: string)

  function NamesOf(secrets: seq<Secret>): set<string> {
    set s | s in secrets :: s.name
  }

  /** What preparation establishes about the state that it found. */
  ghost predicate IsPrepared(p: Prepared, s: State, cfg: Config) {
    && s.resource == Some(p.resource)
    && Consistent(s.app, s.issued)
    && p.keys == DataKeysOf(p.resource)
    && AreAll(p.lists, s.secrets, s.inUse)
    && SetIn(s.secrets, p.resource.status.secretName, p.keys) == Ok(p.tx.latest)
    && p.tx.used == CurrentIds(p.lists.used, p.keys)
    && p.found == s.app.Some? && (p.found ==> p.clientId == s.app.value.clientId)
    && s.now <= p.at && p.options == NewOptions(p.resource, cfg, p.tx.latest, p.at)
  }

  lemma FoundByName(lists: Lists, secrets: map<string, Data>, inUse: set<string>, name: string, keys: DataKeys)
    requires AreAll(lists, secrets, inUse)
    ensures PreviousSet(lists, name, keys) == SetIn(secrets, name, keys)
  {
  }

  lemma CurrentIdsAreThoseOfUsed(lists: Lists, secrets: map<string, Data>, inUse: set<string>, key: string)
    requires AreAll(lists, secrets, inUse)
    ensures forall id :: id in IdsIn(lists.used, key) <==> id in CurrentIn(secrets, inUse, key)
  {
  }

  /** The managed secrets, and what the transaction takes from them. */
  method PrepareSecrets(w: World, resource: Resource, keys: DataKeys) returns (r: Result<(Lists, Transaction)>)
    modifies w`failures
    ensures r.Ok? ==>
              && AreAll(r.value.0, w.secrets, w.inUse) && w.failures == old(w.failures)
              && SetIn(w.secrets, resource.status.secretName, keys) == Ok(r.value.1.latest)
              && r.value.1.used == CurrentIds(r.value.0.used, keys)
    ensures r.Err? && w.failures == old(w.failures) ==> SetIn(w.secrets, resource.status.secretName, keys).Err?
    ensures old(w.failures) <= w.failures
  {
    var lists :- w.ListSecrets();
    var used, unused := GetKeyIds(lists, keys);
    FoundByName(lists, w.secrets, w.inUse, resource.status.secretName, keys);
    var previous := GetPreviousCredentialsSet(lists, resource.status.secretName, keys);
    var latest :- previous;
    return Ok((lists, Transaction(latest, used)));
  }

  method Prepare(w: World, cfg: Config) returns (r: Result<Prepared>)
    requires w.Valid()
    modifies w`now, w`failures
    ensures w.Valid() && old(w.now) <= w.now && old(w.failures) <= w.failures
    ensures r.Ok? ==> IsPrepared(r.value, old(w.View()), cfg) && r.value.at <= w.now && w.failures == old(w.failures)
    ensures r.Err? && w.failures == old(w.failures) ==>
              w.resource.None? || SetIn(w.secrets, w.resource.value.status.secretName, DataKeysOf(w.resource.value)).Err?
  {
    var resource :- w.GetResource();
    var keys := NewDataKeys(resource.spec.keyPrefix);
    var secrets :- PrepareSecrets(w, resource, keys);
    var (lists, tx) := secrets;
    var now := w.Now();
    var options := NewOptions(resource, cfg, tx.latest, now);
    var found :- w.ApplicationExists();
    return Ok(Prepared(resource, keys, lists, tx, options, now, found.Some?, if found.Some? then found.value else ""));
  }

  /** The protected credentials, as the transaction knows them. */
  lemma TransactionProtects(p: Prepared, s: State, cfg: Config)
    requires IsPrepared(p, s, cfg)
    ensures LatestSet(s) == p.tx.latest
    ensures p.tx.latest.Some? ==> ProtectedBy(p.tx) == ProtectedIn(s)
  {
    CurrentIdsAreThoseOfUsed(p.lists, s.secrets, s.inUse, p.keys.current.certificateKeyId);
    CurrentIdsAreThoseOfUsed(p.lists, s.secrets, s.inUse, p.keys.current.passwordKeyId);
    if p.tx.latest.Some? {
      assert ProtectedBy(p.tx).keyIds == ProtectedIn(s).keyIds;
      assert ProtectedBy(p.tx).passwordIds == ProtectedIn(s).passwordIds;
    }
  }

  // ---------------------------------------------------------- processing

  /** The part of a reconcile up to the point where it writes the secret. */
  ghost predicate InProgress(s0: State, s: State)
    requires s0.resource.Some?
  {
    && Keeps(s0, s, ProtectedIn(s0))
    && OthersKept(s0.secrets, s.secrets, s0.inUse, s0.resource.value.spec.secretName)
    && SameAt(s0.secrets, s.secrets, s0.resource.value.spec.secretName)
    && s.resource == s0.resource && MayBeApplied(s0, s.applied)
  }

  lemma StillInProgress(s0: State, s1: State, s2: State)
    requires s0.resource.Some? && InProgress(s0, s1) && Keeps(s1, s2, ProtectedIn(s0))
    requires s2.secrets == s1.secrets && s2.resource == s1.resource && MayBeApplied(s0, s2.applied)
    ensures InProgress(s0, s2)
  {
  }

  lemma InvalidityLasts(s: State, cfg: Config, at: int, later: int)
    requires s.resource.Some? && at <= later && LatestIsInvalid(s, cfg, at)
    ensures LatestIsInvalid(s, cfg, later)
  {
  }

  /** What was unexpired and protected from the start is unexpired now. */
  lemma UnexpiredWasRetained(s0: State, s: State, set_: Set, p: Protected)
    requires Keeps(s0, s, p) && KeyIdsOf(set_) <= p.keyIds && PasswordIdsOf(set_) <= p.passwordIds
    requires SetUnexpired(set_, s0.app, s.now)
    ensures SetUnexpired(set_, s.app, s.now)
  {
  }

  lemma ValidSetLives(s: Set, state: State, at: int)
    requires Consistent(state.app, state.issued) && SetUnexpired(s, state.app, at)
    ensures SetLives(s, state)
  {
  }

  method DeleteExpiredCredentials(w: World, p: Prepared, ghost s0: State) returns (ok: bool)
    requires w.Valid() && s0.resource.Some? && InProgress(s0, w.View()) && p.found == w.app.Some?
    modifies w`app, w`now, w`failures
    ensures w.Valid() && InProgress(s0, w.View()) && p.found == w.app.Some? && old(w.now) <= w.now
    ensures !ok ==> old(w.failures) < w.failures
    ensures w.failures == old(w.failures) ==> PastAreGone(s0, w.app)
  {
    if !p.found {
      return true;
    }
    ok := CredentialsClient.DeleteExpired(w, ProtectedIn(s0));
    StillInProgress(s0, old(w.View()), w.View());
  }

  /** What is known about the latest set once it has been validated. */
  ghost predicate IsAssessed(p: Prepared, flags: Flags, inDirectory: bool, s0: State, at: int, cfg: Config)
    requires s0.resource.Some?
  {
    && p.at <= at && flags == Validated(p.options, inDirectory)
    && (inDirectory ==> CanValidate(p.found, p.options) && !LatestIsInvalid(s0, cfg, s0.now))
    && (!inDirectory ==> LatestIsInvalid(s0, cfg, at))
  }

  method ValidateCredentials(w: World, p: Prepared, cfg: Config, ghost s0: State) returns (r: Result<bool>)
    requires w.Valid() && IsPrepared(p, s0, cfg) && p.at <= w.now && InProgress(s0, w.View()) && w.issued == s0.issued
    modifies w`now, w`failures
    ensures w.Valid() && InProgress(s0, w.View()) && w.Counted(old(w.failures), r.Ok?) && old(w.now) <= w.now
    ensures r.Ok? ==> IsAssessed(p, Validated(p.options, r.value), r.value, s0, w.now, cfg)
  {
    TransactionProtects(p, s0, cfg);
    if !p.found || !p.options.valid {
      return Ok(false);
    }
    r := CredentialsClient.Validate(w, p.tx.latest.value);
    Assessed(s0, old(w.View()), w.View(), p, cfg);
    if r == Ok(true) {
      ValidFromTheStart(s0, old(w.View()), p, cfg);
    }
  }

  /** No credential has come without an ID that was issued for it. */
  lemma NoneCame(before: Option<Application>, after: Option<Application>, issued: Issued)
    requires Consistent(after, issued)
    requires ComesFrom(Keys(before), Keys(after), issued) && ComesFrom(Passwords(before), Passwords(after), issued)
    ensures forall c :: c in Keys(after) ==> c in Keys(before)
    ensures forall c :: c in Passwords(after) ==> c in Passwords(before)
  {
  }

  lemma UnexpiredBefore(set_: Set, before: Option<Application>, after: Option<Application>, at: int, later: int)
    requires at <= later && SetUnexpired(set_, after, later)
    requires forall c :: c in Keys(after) ==> c in Keys(before)
    requires forall c :: c in Passwords(after) ==> c in Passwords(before)
    ensures SetUnexpired(set_, before, at)
  {
  }

  /** As no credential has come since, what is valid now was so from the start. */
  lemma ValidFromTheStart(s0: State, s: State, p: Prepared, cfg: Config)
    requires IsPrepared(p, s0, cfg) && p.options.valid && InProgress(s0, s) && s.issued == s0.issued
    requires SetUnexpired(p.tx.latest.value, s.app, s.now)
    ensures !LatestIsInvalid(s0, cfg, s0.now)
  {
    TransactionProtects(p, s0, cfg);
    NoneCame(s0.app, s.app, s.issued);
    UnexpiredBefore(p.tx.latest.value, s0.app, s.app, s0.now, s.now);
  }

  lemma Assessed(s0: State, s: State, s': State, p: Prepared, cfg: Config)
    requires IsPrepared(p, s0, cfg) && p.tx.latest.Some? && InProgress(s0, s)
    requires s' == s.(now := s'.now, failures := s'.failures) && s.now <= s'.now && s.failures <= s'.failures
    ensures InProgress(s0, s')
    ensures !SetUnexpired(p.tx.latest.value, s'.app, s'.now) ==> LatestIsInvalid(s0, cfg, s'.now)
  {
    var latest, prot := p.tx.latest.value, ProtectedIn(s0);
    TransactionProtects(p, s0, cfg);
    StillInProgress(s0, s, s');
    if SetUnexpired(latest, s0.app, s'.now) {
      UnexpiredWasRetained(s0, s', latest, prot);
    }
  }

  /** Some of the named secrets are gone, and nothing else has changed. */
  ghost predicate SomeDeleted(before: map<string, Data>, after: map<string, Data>, names: set<string>) {
    && (forall n :: n in after ==> n in before && after[n] == before[n])
    && (forall n :: n in before && n !in names ==> n in after)
  }

  /** All of the listed ones but the resource's own. */
  method DeleteSecrets(w: World, unused: seq<Secret>, own: string) returns (ok: bool)
    modifies w`secrets, w`failures
    ensures SomeDeleted(old(w.secrets), w.secrets, NamesOf(unused) - {own})
    ensures w.Counted(old(w.failures), ok)
    ensures ok ==> forall n :: n in NamesOf(unused) - {own} ==> n !in w.secrets
  {
    ghost var names := NamesOf(unused) - {own};
    for i := 0 to |unused|
      invariant SomeDeleted(old(w.secrets), w.secrets, names) && w.failures == old(w.failures)
      invariant forall j :: 0 <= j < i ==> unused[j].name !in w.secrets || unused[j].name == own
    {
      if unused[i].name != own {
        assert unused[i].name in names;
        ok := w.DeleteSecret(unused[i].name);
        if !ok {
          return false;
        }
      }
    }
    return true;
  }

  method DeleteUnusedSecrets(w: World, p: Prepared, ghost s0: State) returns (ok: bool)
    requires w.Valid() && s0.resource == Some(p.resource) && InProgress(s0, w.View())
    requires AreAll(p.lists, s0.secrets, s0.inUse)
    modifies w`secrets, w`failures
    ensures w.Valid() && InProgress(s0, w.View())
    ensures w.Counted(old(w.failures), ok)
    ensures ok ==> OnlyUsedLeft(w.secrets, w.inUse, p.resource.spec.secretName)
  {
    ok := DeleteSecrets(w, p.lists.unused, p.resource.spec.secretName);
    DeletingKeeps(p.lists, s0, old(w.View()), w.View());
  }

  lemma DeletingKeeps(lists: Lists, s0: State, s: State, s': State)
    requires s0.resource.Some? && InProgress(s0, s) && AreAll(lists, s0.secrets, s0.inUse)
    requires s' == s.(secrets := s'.secrets, failures := s'.failures) && s.failures <= s'.failures
    requires SomeDeleted(s.secrets, s'.secrets, NamesOf(lists.unused) - {s0.resource.value.spec.secretName})
    ensures InProgress(s0, s')
    ensures (forall n :: n in NamesOf(lists.unused) - {s0.resource.value.spec.secretName} ==> n !in s'.secrets) ==>
              OnlyUsedLeft(s'.secrets, s'.inUse, s0.resource.value.spec.secretName)
  {
    assert forall n :: n in s'.secrets && n != s0.resource.value.spec.secretName ==> n in s0.secrets;
    forall n | n in s0.secrets && n !in s0.inUse
      ensures n in NamesOf(lists.unused)
    {
      assert Secret(n, s0.secrets[n]) in lists.used || Secret(n, s0.secrets[n]) in lists.unused;
    }
  }

  // ------------------------------------------- going on after a clean-up

  /** What a step may do without undoing the clean-up: no credential comes back, no secret comes but
      the resource's own, and if the set is left as it is, the app is as well. */
  ghost predicate Continues(s0: State, s: State, s': State, cfg: Config)
    requires s0.resource.Some?
  {
    && s.failures <= s'.failures && s.now <= s'.now && Extends(s.issued, s'.issued)
    && ComesFrom(Keys(s.app), Keys(s'.app), s.issued) && ComesFrom(Passwords(s.app), Passwords(s'.app), s.issued)
    && (forall n :: n in s'.secrets ==> n in s.secrets || n == s0.resource.value.spec.secretName)
    && (LeavesSet(s0, cfg, s'.now) ==> s'.app == s.app)
  }

  lemma SameAppContinues(s0: State, s: State, s': State, cfg: Config)
    requires s0.resource.Some? && s'.app == s.app && s'.issued == s.issued && s.now <= s'.now && s.failures <= s'.failures
    requires s'.secrets.Keys <= s.secrets.Keys + {s0.resource.value.spec.secretName}
    ensures Continues(s0, s, s', cfg)
  {
  }

  lemma LeftEarlier(s0: State, cfg: Config, at: int, later: int)
    requires s0.resource.Some? && at <= later && LeavesSet(s0, cfg, later)
    ensures LeavesSet(s0, cfg, at)
  {
    if LatestIsInvalid(s0, cfg, at) {
      InvalidityLasts(s0, cfg, at, later);
    }
  }

  lemma ContinuesOn(s0: State, a: State, b: State, c: State, cfg: Config)
    requires s0.resource.Some? && Continues(s0, a, b, cfg) && Continues(s0, b, c, cfg)
    ensures Continues(s0, a, c, cfg)
  {
    if LeavesSet(s0, cfg, c.now) {
      LeftEarlier(s0, cfg, b.now, c.now);
    }
  }

  lemma CleanedLater(s0: State, s: State, s': State, cfg: Config)
    requires s0.resource.Some? && Consistent(s0.app, s0.issued) && Extends(s0.issued, s.issued) && s0.failures <= s.failures
    requires CleanedUp(s0, s, cfg) && Continues(s0, s, s', cfg)
    ensures CleanedUp(s0, s', cfg)
  {
    if LeavesSet(s0, cfg, s'.now) {
      LeftEarlier(s0, cfg, s.now, s'.now);
    }
    if s'.failures == s0.failures {
      PastStayGone(s0, s, s');
    }
  }

  /** What the application step returns. */
  datatype Applied = Applied(operation: Operation, clientId: string, validApps: string)

  /** Creating or updating the app leaves its credentials alone. */
  method ProcessApplication(w: World, p: Prepared, cfg: Config, flags: Flags, ghost inDirectory: bool, ghost s0: State)
    returns (r: Result<Applied>)
    requires w.Valid() && IsPrepared(p, s0, cfg) && InProgress(s0, w.View()) && p.found == w.app.Some?
    requires flags == Validated(p.options, inDirectory) && w.applied == s0.applied
    modifies w`app, w`applied, w`failures
    ensures w.Valid() && InProgress(s0, w.View()) && Continues(s0, old(w.View()), w.View(), cfg)
    ensures p.found ==> w.app == old(w.app)
    ensures r.Ok? ==>
              && w.app.Some? && IsApplied(s0, w.applied)
              && r.value == Applied(OperationFor(p.found, flags), w.app.value.clientId, w.validApps)
    ensures r.Err? ==> old(w.failures) < w.failures
  {
    var hash := p.resource.spec.hash;
    if !p.found {
      var created := w.CreateApplication(hash);
      StillInProgress(s0, old(w.View()), w.View());
      return if created.Ok? then Ok(Applied(Created, created.value.0, created.value.1)) else Err;
    }
    var apps;
    if flags.azureSynchronize {
      apps := w.UpdateApplication(hash);
    } else {
      apps := w.GetPreAuthorizedApps();
    }
    StillInProgress(s0, old(w.View()), w.View());
    return if apps.Ok? then Ok(Applied(OperationFor(p.found, flags), p.clientId, apps.value)) else Err;
  }

  lemma FlagsTellNeed(p: Prepared, cfg: Config, flags: Flags, inDirectory: bool, s0: State, since: int)
    requires IsPrepared(p, s0, cfg)
    requires IsAssessed(p, flags, inDirectory, s0, since, cfg) && flags.synchronize
    ensures forall at :: since <= at ==> NeedsSynchronization(s0, cfg, at)
  {
  }

  /** A set that was valid at the start is registered as long as the secret is not written. */
  lemma LatestLives(s0: State, s: State, cfg: Config)
    requires s0.resource.Some? && Consistent(s0.app, s0.issued) && InProgress(s0, s) && !LatestIsInvalid(s0, cfg, s0.now)
    ensures SetLives(LatestSet(s0).value, s)
  {
    ValidSetLives(LatestSet(s0).value, s0, s0.now);
    ProtectedSetLives(LatestSet(s0).value, s0, s, ProtectedIn(s0));
  }

  /** The app is the same one, if there was one. */
  predicate SameApp(before: Option<Application>, after: Option<Application>) {
    after.Some? == before.Some? && (before.Some? ==> after.value.clientId == before.value.clientId)
  }

  method AddSet(w: World, cfg: Config, ghost s0: State) returns (r: Result<Set>)
    requires w.Valid() && s0.resource.Some? && InProgress(s0, w.View()) && LatestIsInvalid(s0, cfg, w.now)
    modifies w`app, w`issued, w`now, w`failures
    ensures w.Valid() && InProgress(s0, w.View()) && SameApp(old(w.app), w.app)
    ensures Continues(s0, old(w.View()), w.View(), cfg)
    ensures r.Err? ==> old(w.failures) < w.failures
    ensures r.Ok? ==>
              && SetLives(r.value, w.View()) && SetOpens(r.value, w.issued) && IsReplaced(s0, w.now, cfg, r.value)
              && HasNoEmptyField(r.value.current) && HasNoEmptyField(r.value.next)
  {
    r := CredentialsClient.Add(w, ProtectedIn(s0));
    StillInProgress(s0, old(w.View()), w.View());
    InvalidityLasts(s0, cfg, old(w.now), w.now);
  }

  lemma RotatingContinues(s0: State, s: State, s': State, cfg: Config)
    requires s0.resource.Some? && AskedToRotate(s0.resource.value) && Keeps(s, s', ProtectedIn(s0)) && s'.secrets == s.secrets
    ensures Continues(s0, s, s', cfg)
  {
  }

  method RotateSet(w: World, tx: Transaction, cfg: Config, ghost s0: State) returns (r: Result<Set>)
    requires w.Valid() && s0.resource.Some? && InProgress(s0, w.View()) && AskedToRotate(s0.resource.value)
    requires tx.latest.Some? && ProtectedBy(tx) == ProtectedIn(s0)
    requires SetLives(tx.latest.value, w.View()) && HasNoEmptyField(tx.latest.value.next)
    modifies w`app, w`issued, w`now, w`failures
    ensures w.Valid() && InProgress(s0, w.View()) && SameApp(old(w.app), w.app)
    ensures Continues(s0, old(w.View()), w.View(), cfg)
    ensures r.Err? ==> old(w.failures) < w.failures
    ensures r.Ok? ==>
              && SetLives(r.value, w.View()) && IsRotated(tx.latest.value, r.value, s0.issued)
              && (SetOpens(tx.latest.value, old(w.issued)) ==> SetOpens(r.value, w.issued))
              && HasNoEmptyField(r.value.current) && HasNoEmptyField(r.value.next)
  {
    r := CredentialsClient.Rotate(w, tx);
    StillInProgress(s0, old(w.View()), w.View());
    RotatingContinues(s0, old(w.View()), w.View(), cfg);
  }

  lemma RotatedIsReplaced(s0: State, cfg: Config, at: int, latest: Set, set_: Set)
    requires s0.resource.Some? && AskedToRotate(s0.resource.value) && !LatestIsInvalid(s0, cfg, s0.now)
    requires LatestSet(s0) == Some(latest) && IsRotated(latest, set_, s0.issued)
    ensures IsReplaced(s0, at, cfg, set_)
  {
  }

  lemma LatestHasNoEmptyField(p: Prepared, s0: State, cfg: Config)
    requires IsPrepared(p, s0, cfg) && p.tx.latest.Some?
    ensures HasNoEmptyField(p.tx.latest.value.current) && HasNoEmptyField(p.tx.latest.value.next)
  {
    ExtractedHasNoEmptyField(s0.secrets[p.resource.status.secretName], p.keys);
  }

  /** The set to be written: a new one, the latest one rotated, or the latest one. */
  method ChooseSet(w: World, p: Prepared, cfg: Config, flags: Flags, ghost inDirectory: bool, ghost s0: State)
    returns (r: Result<Set>)
    requires w.Valid() && IsPrepared(p, s0, cfg) && InProgress(s0, w.View())
    requires IsAssessed(p, flags, inDirectory, s0, w.now, cfg) && flags.synchronize
    modifies w`app, w`issued, w`now, w`failures
    ensures w.Valid() && InProgress(s0, w.View()) && SameApp(old(w.app), w.app)
    ensures Continues(s0, old(w.View()), w.View(), cfg)
    ensures r.Err? ==> old(w.failures) < w.failures
    ensures r.Ok? ==>
              && IsInstalled(s0, w.View(), cfg, r.value)
              && (if flags.valid && !flags.rotate then IsReused(s0, cfg, r.value) else IsReplaced(s0, w.now, cfg, r.value))
              && HasNoEmptyField(r.value.current) && HasNoEmptyField(r.value.next)
  {
    TransactionProtects(p, s0, cfg);
    FlagsTellNeed(p, cfg, flags, inDirectory, s0, w.now);
    if inDirectory {
      LatestHasNoEmptyField(p, s0, cfg);
      LatestLives(s0, w.View(), cfg);
      if SetOpens(p.tx.latest.value, s0.issued) {
        StillOpens(p.tx.latest.value, s0.issued, w.issued);
      }
    }
    if !flags.valid {
      r := AddSet(w, cfg, s0);
    } else if flags.rotate {
      r := RotateSet(w, p.tx, cfg, s0);
      if r.Ok? {
        RotatedIsReplaced(s0, cfg, w.now, p.tx.latest.value, r.value);
      }
    } else {
      r := Ok(p.tx.latest.value);
    }
  }

  /** A reconcile that may have written the secret, but not yet the resource. */
  ghost predicate SecretSettled(s0: State, s: State, cfg: Config, installed: Option<Set>)
    requires s0.resource.Some?
  {
    var own := s0.resource.value.spec.secretName;
    && Keeps(s0, s, ProtectedIn(s0))
    && OthersKept(s0.secrets, s.secrets, s0.inUse, own)
    && (installed.None? ==> SameAt(s0.secrets, s.secrets, own))
    && (installed.Some? ==>
          && IsInstalled(s0, s, cfg, installed.value)
          && IsWrittenFor(s0, s, cfg, installed.value))
    && s.resource == s0.resource && MayBeApplied(s0, s.applied)
  }

  lemma SettledLater(s0: State, s: State, s': State, cfg: Config, installed: Option<Set>)
    requires s0.resource.Some? && SecretSettled(s0, s, cfg, installed)
    requires s' == s.(now := s'.now, failures := s'.failures) && s.now <= s'.now && s.failures <= s'.failures
    ensures SecretSettled(s0, s', cfg, installed)
  {
    if LatestIsInvalid(s0, cfg, s.now) {
      InvalidityLasts(s0, cfg, s.now, s'.now);
    }
  }

  lemma StillInstalled(s0: State, s: State, s': State, cfg: Config, set_: Set)
    requires s0.resource.Some? && IsInstalled(s0, s, cfg, set_)
    requires s' == s.(secrets := s'.secrets, failures := s'.failures)
    ensures IsInstalled(s0, s', cfg, set_)
  {
  }

  lemma SetIsWritten(secrets: map<string, Data>, name: string, app: Metadata, set_: Set, keyPrefix: string)
    requires HasNoEmptyField(set_.current) && HasNoEmptyField(set_.next)
    ensures IsWritten(secrets, SecretWritten(secrets, name, SecretData(app, set_, NewDataKeys(keyPrefix))), name, set_, app, keyPrefix)
  {
    SecretIsOfApp(DataOf(secrets, name), app, set_, keyPrefix);
    SecretRoundTrip(DataOf(secrets, name), app, set_, keyPrefix);
    WritingKeepsOthers(DataOf(secrets, name), app, set_, NewDataKeys(keyPrefix));
  }

  lemma WrittenSettles(s0: State, s: State, s': State, cfg: Config, set_: Set)
    requires s0.resource.Some? && InProgress(s0, s) && IsInstalled(s0, s', cfg, set_)
    requires s' == s.(secrets := s'.secrets, failures := s'.failures) && s.failures <= s'.failures
    requires var name := s0.resource.value.spec.secretName;
             && s'.secrets == s.secrets[name := DataOf(s'.secrets, name)]
             && IsWrittenFor(s0, s', cfg, set_)
    ensures SecretSettled(s0, s', cfg, Some(set_))
  {
  }

  lemma WritingSettles(s0: State, s: State, s': State, cfg: Config, app: Metadata, set_: Set)
    requires s0.resource.Some? && InProgress(s0, s) && IsInstalled(s0, s, cfg, set_)
    requires HasNoEmptyField(set_.current) && HasNoEmptyField(set_.next)
    requires s.app.Some? && app == MetadataOf(s.app.value.clientId, s0.validApps, cfg)
    requires var r := s0.resource.value;
             s' == s.(secrets := SecretWritten(s.secrets, r.spec.secretName, SecretData(app, set_, DataKeysOf(r))),
                      failures := s'.failures) && s.failures <= s'.failures
    ensures SecretSettled(s0, s', cfg, Some(set_))
  {
    var name := s0.resource.value.spec.secretName;
    SetIsWritten(s.secrets, name, app, set_, s0.resource.value.spec.keyPrefix);
    assert DataOf(s.secrets, name) == DataOf(s0.secrets, name);
    StillInstalled(s0, s, s', cfg, set_);
    WrittenSettles(s0, s, s', cfg, set_);
  }

  lemma NotWritingSettles(s0: State, s: State, cfg: Config)
    requires s0.resource.Some? && InProgress(s0, s)
    ensures SecretSettled(s0, s, cfg, None)
  {
  }

  /** A write that has failed may have taken effect. */
  lemma WritingSettlesOrNot(s0: State, s: State, s': State, cfg: Config, app: Metadata, set_: Set, installed: Option<Set>)
    requires s0.resource.Some? && InProgress(s0, s) && IsInstalled(s0, s, cfg, set_)
    requires HasNoEmptyField(set_.current) && HasNoEmptyField(set_.next)
    requires s.app.Some? && app == MetadataOf(s.app.value.clientId, s0.validApps, cfg)
    requires var r := s0.resource.value;
             var written := SecretWritten(s.secrets, r.spec.secretName, SecretData(app, set_, DataKeysOf(r)));
             && s' == s.(secrets := s'.secrets, failures := s'.failures) && s.failures <= s'.failures
             && (s'.secrets == s.secrets || s'.secrets == written)
             && installed == (if s'.secrets == written then Some(set_) else None)
    ensures SecretSettled(s0, s', cfg, installed)
  {
    if installed.Some? {
      WritingSettles(s0, s, s', cfg, app, set_);
    } else {
      StillInProgress(s0, s, s');
      NotWritingSettles(s0, s', cfg);
    }
  }

  method CreateOrUpdate(w: World, p: Prepared, cfg: Config, app: Metadata, set_: Set, ghost s0: State)
    returns (ok: bool, ghost installed: Option<Set>)
    requires w.Valid() && s0.resource == Some(p.resource) && p.keys == DataKeysOf(p.resource)
    requires InProgress(s0, w.View()) && w.app.Some? && app == MetadataOf(w.app.value.clientId, s0.validApps, cfg)
    requires IsInstalled(s0, w.View(), cfg, set_) && HasNoEmptyField(set_.current) && HasNoEmptyField(set_.next)
    modifies w`secrets, w`failures
    ensures w.Valid() && SecretSettled(s0, w.View(), cfg, installed)
    ensures w.View() == old(w.View()).(secrets := w.secrets, failures := w.failures)
    ensures w.secrets.Keys <= old(w.secrets).Keys + {p.resource.spec.secretName} && old(w.failures) <= w.failures
    ensures ok ==> installed == Some(set_)
    ensures !ok ==> old(w.failures) < w.failures
  {
    ghost var before := w.View();
    var name := p.resource.spec.secretName;
    var data := SecretData(app, set_, p.keys);
    ok := w.WriteSecret(name, data);
    installed := if w.secrets == SecretWritten(before.secrets, name, data) then Some(set_) else None;
    WritingSettlesOrNot(s0, before, w.View(), cfg, app, set_, installed);
  }

  lemma EarlyReturnIsUnreachable(p: Prepared, cfg: Config, flags: Flags, operation: Operation, inDirectory: bool, s0: State)
    requires IsPrepared(p, s0, cfg) && flags == Validated(p.options, inDirectory)
    requires inDirectory ==> CanValidate(p.found, p.options)
    requires flags.synchronize && operation == OperationFor(p.found, flags)
    ensures !(flags.valid && !flags.rotate && operation == NotModified)
  {
    SecretIsAlwaysWritten(p.resource, cfg, p.tx.latest, p.at, p.found, inDirectory);
  }

  /** The resource, and the IDs in use, are those that the transaction knows of. */
  predicate KnowsIds(p: Prepared, s0: State) {
    && s0.resource == Some(p.resource) && p.keys == DataKeysOf(p.resource)
    && AreIds(p.tx.used, CurrentKeyIds(s0), CurrentPasswordIds(s0))
  }

  lemma UsedAreCurrent(p: Prepared, s0: State, cfg: Config)
    requires IsPrepared(p, s0, cfg)
    ensures KnowsIds(p, s0)
  {
    CurrentIdsAreThoseOfUsed(p.lists, s0.secrets, s0.inUse, p.keys.current.certificateKeyId);
    CurrentIdsAreThoseOfUsed(p.lists, s0.secrets, s0.inUse, p.keys.current.passwordKeyId);
  }

  lemma ReplacedLater(s0: State, cfg: Config, set_: Set, at: int, later: int)
    requires s0.resource.Some? && IsReplaced(s0, at, cfg, set_) && at <= later
    ensures IsReplaced(s0, later, cfg, set_)
  {
    if LatestIsInvalid(s0, cfg, at) {
      InvalidityLasts(s0, cfg, at, later);
    }
  }

  /** The status after a set was written: with its IDs, and the time, if it is another one than before. */
  method StatusWithKeyIds(w: World, p: Prepared, cfg: Config, flags: Flags, set_: Set, ghost s0: State)
    returns (status: Status)
    requires w.Valid() && KnowsIds(p, s0) && s0.now <= w.now
    requires if flags.valid && !flags.rotate then IsReused(s0, cfg, set_) else IsReplaced(s0, w.now, cfg, set_)
    modifies w`now
    ensures w.Valid() && old(w.now) <= w.now && w.View() == old(w.View()).(now := w.now)
    ensures IsTold(s0, w.now, cfg, set_, status.rotationTime, status.keyIds)
  {
    status := p.resource.status.(keyIds := p.tx.used);
    if !flags.valid || flags.rotate {
      var certificateIds := p.tx.used.certificate + [set_.current.certificate.keyId];
      var passwordIds := p.tx.used.password + [set_.current.password.keyId];
      var now := w.Now();
      status := status.(keyIds := KeyIds(certificateIds, passwordIds), rotationTime := Some(now));
      ReplacedLater(s0, cfg, set_, old(w.now), w.now);
      OneMoreId(p.tx.used.certificate, CurrentKeyIds(s0), set_.current.certificate.keyId);
      OneMoreId(p.tx.used.password, CurrentPasswordIds(s0), set_.current.password.keyId);
    }
  }

  lemma OneMoreId(list: seq<string>, ids: set<string>, id: string)
    requires (set x | x in list) == ids
    ensures (set x | x in list + [id]) == ids + {id}
  {
  }

  method ProcessSecrets(w: World, p: Prepared, cfg: Config, applied: Applied, flags: Flags, ghost inDirectory: bool, ghost s0: State)
    returns (r: Result<Status>, ghost installed: Option<Set>)
    requires w.Valid() && IsPrepared(p, s0, cfg) && InProgress(s0, w.View())
    requires IsAssessed(p, flags, inDirectory, s0, w.now, cfg) && flags.synchronize
    requires w.app.Some? && applied == Applied(OperationFor(p.found, flags), w.app.value.clientId, w.validApps)
    modifies w`app, w`issued, w`now, w`secrets, w`failures
    ensures w.Valid() && SecretSettled(s0, w.View(), cfg, installed) && Continues(s0, old(w.View()), w.View(), cfg)
    ensures r.Err? ==> old(w.failures) < w.failures
    ensures r.Ok? ==> installed.Some? && IsTold(s0, w.now, cfg, installed.value, r.value.rotationTime, r.value.keyIds)
  {
    if flags.valid && !flags.rotate && applied.operation == NotModified {
      EarlyReturnIsUnreachable(p, cfg, flags, applied.operation, inDirectory, s0);
      assert false;
    }
    UsedAreCurrent(p, s0, cfg);
    var app := MetadataOf(applied.clientId, applied.validApps, cfg);
    var chosen := ChooseSet(w, p, cfg, flags, inDirectory, s0);
    if chosen.Err? {
      NotWritingSettles(s0, w.View(), cfg);
      return Err, None;
    }
    label Chosen:
    r, installed := InstallSet(w, p, cfg, app, flags, chosen.value, s0);
    ContinuesOn(s0, old(w.View()), old@Chosen(w.View()), w.View(), cfg);
  }

  /** Writes the set, and then tells of it. */
  method InstallSet(w: World, p: Prepared, cfg: Config, app: Metadata, flags: Flags, set_: Set, ghost s0: State)
    returns (r: Result<Status>, ghost installed: Option<Set>)
    requires w.Valid() && KnowsIds(p, s0) && InProgress(s0, w.View())
    requires w.app.Some? && app == MetadataOf(w.app.value.clientId, s0.validApps, cfg)
    requires IsInstalled(s0, w.View(), cfg, set_) && HasNoEmptyField(set_.current) && HasNoEmptyField(set_.next)
    requires if flags.valid && !flags.rotate then IsReused(s0, cfg, set_) else IsReplaced(s0, w.now, cfg, set_)
    modifies w`now, w`secrets, w`failures
    ensures w.Valid() && SecretSettled(s0, w.View(), cfg, installed) && Continues(s0, old(w.View()), w.View(), cfg)
    ensures r.Err? ==> old(w.failures) < w.failures
    ensures r.Ok? ==> installed.Some? && IsTold(s0, w.now, cfg, installed.value, r.value.rotationTime, r.value.keyIds)
  {
    var ok;
    ok, installed := CreateOrUpdate(w, p, cfg, app, set_, s0);
    r := Err;
    if ok {
      label Written:
      var status := StatusWithKeyIds(w, p, cfg, flags, set_, s0);
      SettledLater(s0, old@Written(w.View()), w.View(), cfg, installed);
      r := Ok(status);
    }
    SameAppContinues(s0, old(w.View()), w.View(), cfg);
  }

  // ---------------------------------------------------------- completion

  /** Who is allowed past the finalizer step. */
  predicate IsOurs(r: Resource, cfg: Config) {
    FINALIZER in r.finalizers && !r.deleting && !IsIgnored(r, cfg)
  }

  lemma SettledIsProcessed(s0: State, s: State, cfg: Config, installed: Option<Set>)
    requires s0.resource.Some? && IsOurs(s0.resource.value, cfg) && SecretSettled(s0, s, cfg, installed)
    requires s.failures == s0.failures ==> !NeedsSynchronization(s0, cfg, s0.now)
    ensures ProcessedEffect(s0, s, cfg, installed, false)
  {
  }

  function CompletedStatus(status: Status, r: Resource, cfg: Config): Status {
    status.(secretName := r.spec.secretName, hash := r.spec.hash, tenant := cfg.tenantId)
  }

  /** After the secret, at most the status and the annotations are written. */
  lemma CompletionIsProcessed(s0: State, s: State, s': State, cfg: Config, installed: Option<Set>,
                              status: Status, annotations: Option<AnnotationMap>, completed: bool)
    requires s0.resource.Some? && IsOurs(s0.resource.value, cfg) && SecretSettled(s0, s, cfg, installed)
    requires installed.Some? && IsTold(s0, s.now, cfg, installed.value, status.rotationTime, status.keyIds) && IsApplied(s0, s.applied)
    requires var r := s0.resource.value;
             && (s' == s.(resource := Some(r.(annotations := annotations)), failures := s'.failures) ||
                 s' == s.(resource := Some(r.(status := CompletedStatus(status, r, cfg), annotations := annotations)),
                          failures := s'.failures))
             && s.failures <= s'.failures && (s.failures == s'.failures ==> completed)
             && (completed ==>
                   && s'.resource.value.status == CompletedStatus(status, r, cfg)
                   && Items(s'.resource.value) == Completion.Processed(Items(r), Items(r)))
             && (!completed ==> annotations == r.annotations)
    ensures ProcessedEffect(s0, s', cfg, installed, completed)
  {
    assert IsReported(s0, s.now, cfg, installed.value, CompletedStatus(status, s0.resource.value, cfg));
    assert SecretSettled(s0, s, cfg, installed) && s'.app == s.app && s'.secrets == s.secrets;
  }

  /** Takes the processed annotations off the resource; `settled` tells whether that took effect. */
  method SettleAnnotations(w: World, p: Prepared) returns (ghost settled: bool)
    requires w.Valid() && w.resource.Some? && w.resource.value.annotations == p.resource.annotations
    modifies w`resource, w`failures
    ensures w.Valid() && w.resource.Some?
    ensures w.resource.value == old(w.resource.value).(annotations := w.resource.value.annotations)
    ensures settled ==> Items(w.resource.value) == Completion.Processed(Items(p.resource), Items(p.resource))
    ensures !settled ==> w.resource == old(w.resource) && old(w.failures) < w.failures
    ensures old(w.failures) <= w.failures
  {
    var instance := new Object(p.resource.annotations);
    var existing := new Object(w.resource.value.annotations);
    assert instance.Items() == existing.Items() == Items(p.resource);
    var merged := Completion.UpdateAnnotations(instance, existing);
    MergedWithItself(Items(p.resource));
    assert merged.Ok?;
    var ok := w.UpdateAnnotations(existing.annotations);
    settled := w.resource.value.annotations == existing.annotations;
  }

  /** The status first, and then the annotations. */
  method ReportAndSettle(w: World, p: Prepared, status: Status) returns (ghost completed: bool)
    requires w.Valid() && w.resource == Some(p.resource)
    modifies w`resource, w`failures
    ensures w.Valid() && w.resource.Some? && old(w.failures) <= w.failures && (w.failures == old(w.failures) ==> completed)
    ensures w.resource == Some(p.resource.(annotations := w.resource.value.annotations)) ||
            w.resource == Some(p.resource.(status := status, annotations := w.resource.value.annotations))
    ensures completed ==>
              w.resource.value.status == status && Items(w.resource.value) == Completion.Processed(Items(p.resource), Items(p.resource))
    ensures !completed ==> w.resource.value.annotations == p.resource.annotations
  {
    completed := false;
    var ok := w.UpdateStatus(status);
    if ok {
      completed := SettleAnnotations(w, p);
    }
  }

  method Complete(w: World, p: Prepared, cfg: Config, status: Status, ghost s0: State, ghost installed: Option<Set>)
    returns (ghost completed: bool)
    requires w.Valid() && s0.resource == Some(p.resource) && IsOurs(p.resource, cfg)
    requires SecretSettled(s0, w.View(), cfg, installed) && installed.Some?
    requires IsTold(s0, w.now, cfg, installed.value, status.rotationTime, status.keyIds) && IsApplied(s0, w.applied)
    modifies w`resource, w`failures
    ensures w.View() == old(w.View()).(resource := w.resource, failures := w.failures)
    ensures w.Valid() && old(w.failures) <= w.failures && ProcessedEffect(s0, w.View(), cfg, installed, completed)
  {
    ghost var before := w.View();
    completed := ReportAndSettle(w, p, CompletedStatus(status, p.resource, cfg));
    CompletionIsProcessed(s0, before, w.View(), cfg, installed, status, w.resource.value.annotations, completed);
  }

  lemma MergedWithItself(m: AnnotationMap)
    ensures Completion.Merged(m, m) == Completion.Processed(m, m)
  {
  }

  // ------------------------------------------------------------ reconcile

  method Finalize(w: World, p: Prepared) returns (ok: bool)
    requires w.Valid() && w.resource == Some(p.resource) && p.found == w.app.Some?
    requires p.resource.deleting && (FINALIZER in p.resource.finalizers || OLD_FINALIZER in p.resource.finalizers)
    modifies w`app, w`resource, w`failures
    ensures w.Valid() && FinalizedEffect(old(w.View()), w.View())
  {
    if PRESERVE_KEY in Items(p.resource) {
      if p.found {
        ok := CredentialsClient.Purge(w);
        if !ok {
          return;
        }
      }
    } else if p.found {
      ok := w.DeleteApplication();
      if !ok {
        return;
      }
    }
    ok := w.UpdateFinalizers(p.resource.finalizers - {FINALIZER, OLD_FINALIZER});
  }

  method ProcessFinalizer(w: World, p: Prepared) returns (processed: bool, ok: bool)
    requires w.Valid() && w.resource == Some(p.resource) && p.found == w.app.Some?
    modifies w`app, w`resource, w`failures
    ensures w.Valid()
    ensures processed ==> FinalizedEffect(old(w.View()), w.View())
    ensures !processed ==> w.View() == old(w.View()) && FINALIZER in p.resource.finalizers && !p.resource.deleting
  {
    var hasFinalizer := FINALIZER in p.resource.finalizers;
    var hasOldFinalizer := OLD_FINALIZER in p.resource.finalizers;
    if (hasFinalizer || hasOldFinalizer) && p.resource.deleting {
      ok := Finalize(w, p);
      return true, ok;
    }
    if !hasFinalizer {
      ok := w.UpdateFinalizers(p.resource.finalizers + {FINALIZER});
      return true, ok;
    }
    return false, true;
  }

  method Orphan(w: World, p: Prepared, cfg: Config) returns (ok: bool)
    requires w.Valid() && p.found == w.app.Some?
    modifies w`app, w`failures
    ensures w.Valid() && (w.app == old(w.app) || (w.app.None? && cfg.cleanupOrphans))
    ensures old(w.failures) <= w.failures
    ensures w.failures == old(w.failures) && cfg.cleanupOrphans ==> w.app.None?
  {
    if !p.found || !cfg.cleanupOrphans {
      return true;
    }
    ok := w.DeleteApplication();
  }

  /** After a failure nothing is written to the resource; otherwise the status is, and the annotations. */
  method CompleteOrFail(w: World, p: Prepared, cfg: Config, status: Result<Status>, ghost s0: State, ghost installed: Option<Set>)
    returns (ghost completed: bool)
    requires w.Valid() && s0.resource == Some(p.resource) && IsOurs(p.resource, cfg) && Consistent(s0.app, s0.issued)
    requires SecretSettled(s0, w.View(), cfg, installed) && CleanedUp(s0, w.View(), cfg)
    requires status.Err? ==> s0.failures < w.failures
    requires status.Ok? ==>
               && installed.Some? && IsTold(s0, w.now, cfg, installed.value, status.value.rotationTime, status.value.keyIds)
               && IsApplied(s0, w.applied)
    modifies w`resource, w`failures
    ensures w.Valid() && ProcessedEffect(s0, w.View(), cfg, installed, completed) && CleanedUp(s0, w.View(), cfg)
  {
    completed := false;
    if status.Ok? {
      completed := Complete(w, p, cfg, status.value, s0, installed);
      SameAppContinues(s0, old(w.View()), w.View(), cfg);
      CleanedLater(s0, old(w.View()), w.View(), cfg);
    } else {
      SettledIsProcessed(s0, w.View(), cfg, installed);
    }
  }

  method Process(w: World, p: Prepared, cfg: Config, flags: Flags, ghost inDirectory: bool, ghost s0: State)
    returns (ghost installed: Option<Set>, ghost completed: bool)
    requires w.Valid() && IsPrepared(p, s0, cfg) && IsOurs(p.resource, cfg)
    requires InProgress(s0, w.View()) && p.found == w.app.Some? && CleanedUp(s0, w.View(), cfg) && w.applied == s0.applied
    requires IsAssessed(p, flags, inDirectory, s0, w.now, cfg) && flags.synchronize
    modifies w
    ensures w.Valid() && ProcessedEffect(s0, w.View(), cfg, installed, completed) && CleanedUp(s0, w.View(), cfg)
  {
    var status;
    status, installed := ProcessBoth(w, p, cfg, flags, inDirectory, s0);
    CleanedLater(s0, old(w.View()), w.View(), cfg);
    completed := CompleteOrFail(w, p, cfg, status, s0, installed);
  }

  /** The app, and then its secret. */
  method ProcessBoth(w: World, p: Prepared, cfg: Config, flags: Flags, ghost inDirectory: bool, ghost s0: State)
    returns (r: Result<Status>, ghost installed: Option<Set>)
    requires w.Valid() && IsPrepared(p, s0, cfg)
    requires InProgress(s0, w.View()) && p.found == w.app.Some? && w.applied == s0.applied
    requires IsAssessed(p, flags, inDirectory, s0, w.now, cfg) && flags.synchronize
    modifies w`app, w`applied, w`issued, w`now, w`secrets, w`failures
    ensures w.Valid() && SecretSettled(s0, w.View(), cfg, installed) && Continues(s0, old(w.View()), w.View(), cfg)
    ensures r.Err? ==> old(w.failures) < w.failures
    ensures r.Ok? ==>
              && IsApplied(s0, w.applied)
              && installed.Some? && IsTold(s0, w.now, cfg, installed.value, r.value.rotationTime, r.value.keyIds)
  {
    var applied := ProcessApplication(w, p, cfg, flags, inDirectory, s0);
    if applied.Err? {
      NotWritingSettles(s0, w.View(), cfg);
      return Err, None;
    }
    label Applied:
    r, installed := ProcessSecrets(w, p, cfg, applied.value, flags, inDirectory, s0);
    ContinuesOn(s0, old(w.View()), old@Applied(w.View()), w.View(), cfg);
  }

  /** The transaction knows the latest set, and what is to be protected. */
  predicate KnowsProtected(tx: Transaction, s0: State) {
    tx.latest.Some? && s0.resource.Some? && LatestSet(s0) == tx.latest && ProtectedBy(tx) == ProtectedIn(s0)
  }

  method DeleteUnusedCredentials(w: World, tx: Transaction, ghost s0: State) returns (ok: bool)
    requires w.Valid() && KnowsProtected(tx, s0) && InProgress(s0, w.View())
    modifies w`app, w`failures
    ensures w.Valid() && InProgress(s0, w.View()) && w.app.Some? == old(w.app).Some?
    ensures old(w.failures) <= w.failures && (!ok ==> old(w.failures) < w.failures)
    ensures ComesFrom(Keys(old(w.app)), Keys(w.app), w.issued) && ComesFrom(Passwords(old(w.app)), Passwords(w.app), w.issued)
    ensures w.failures == old(w.failures) ==> OnlyKept(old(w.app), w.app, ProtectedBy(tx))
  {
    ok := CredentialsClient.DeleteUnused(w, tx);
    StillInProgress(s0, old(w.View()), w.View());
  }

  /** Deletes what no pod uses any more: secrets, and then credentials. */
  method CleanUp(w: World, p: Prepared, flags: Flags, ghost s0: State) returns (ok: bool)
    requires w.Valid() && s0.resource == Some(p.resource) && InProgress(s0, w.View()) && AreAll(p.lists, s0.secrets, s0.inUse)
    requires flags.valid ==> KnowsProtected(p.tx, s0)
    modifies w`app, w`secrets, w`failures
    ensures w.Valid() && InProgress(s0, w.View()) && w.app.Some? == old(w.app).Some?
    ensures old(w.failures) <= w.failures && (!ok ==> old(w.failures) < w.failures)
    ensures ComesFrom(Keys(old(w.app)), Keys(w.app), w.issued) && ComesFrom(Passwords(old(w.app)), Passwords(w.app), w.issued)
    ensures w.failures == old(w.failures) ==> OnlyUsedLeft(w.secrets, w.inUse, p.resource.spec.secretName)
    ensures w.failures == old(w.failures) && flags.cleanup && flags.valid ==> OnlyKept(old(w.app), w.app, ProtectedBy(p.tx))
  {
    ok := DeleteUnusedSecrets(w, p, s0);
    if ok && flags.cleanup && flags.valid {
      ok := DeleteUnusedCredentials(w, p.tx, s0);
    }
  }

  /** Deletes what has expired, and asks the directory about the latest set. */
  method AssessSet(w: World, p: Prepared, cfg: Config, ghost s0: State) returns (r: Result<bool>)
    requires w.Valid() && IsPrepared(p, s0, cfg) && p.at <= w.now && w.View() == s0.(now := w.now)
    modifies w`app, w`now, w`failures
    ensures w.Valid() && InProgress(s0, w.View()) && p.found == w.app.Some?
    ensures r.Err? ==> s0.failures < w.failures
    ensures r.Ok? ==> IsAssessed(p, Validated(p.options, r.value), r.value, s0, w.now, cfg)
    ensures r.Ok? && w.failures == s0.failures ==> PastAreGone(s0, w.app)
  {
    var ok := DeleteExpiredCredentials(w, p, s0);
    if !ok {
      return Err;
    }
    r := ValidateCredentials(w, p, cfg, s0);
  }

  /** Deletes what has expired or is not used, and asks the directory about the latest set. */
  method Assess(w: World, p: Prepared, cfg: Config, ghost s0: State) returns (r: Result<bool>)
    requires w.Valid() && IsPrepared(p, s0, cfg) && p.at <= w.now && w.View() == s0.(now := w.now)
    modifies w`app, w`now, w`secrets, w`failures
    ensures w.Valid() && InProgress(s0, w.View()) && p.found == w.app.Some?
    ensures r.Err? ==> s0.failures < w.failures
    ensures r.Ok? ==> IsAssessed(p, Validated(p.options, r.value), r.value, s0, w.now, cfg)
    ensures CleanedUp(s0, w.View(), cfg)
  {
    r := AssessSet(w, p, cfg, s0);
    if r.Ok? {
      ghost var s := w.View();
      TransactionProtects(p, s0, cfg);
      var ok := CleanUp(w, p, Validated(p.options, r.value), s0);
      if w.failures == s0.failures {
        AssessedIsCleaned(p, r.value, s0, s, w.View(), cfg);
      }
      r := if ok then r else Err;
    }
  }

  lemma PastStayGone(s0: State, s: State, s': State)
    requires Consistent(s0.app, s0.issued) && Extends(s0.issued, s.issued) && PastAreGone(s0, s.app)
    requires ComesFrom(Keys(s.app), Keys(s'.app), s.issued) && ComesFrom(Passwords(s.app), Passwords(s'.app), s.issued)
    ensures PastAreGone(s0, s'.app)
  {
  }

  /** Cleaning up is due to happen exactly where the set is left as it is. */
  lemma AssessedIsCleaned(p: Prepared, inDirectory: bool, s0: State, s: State, s': State, cfg: Config)
    requires IsPrepared(p, s0, cfg) && Extends(s0.issued, s.issued) && s.now <= s'.now && s'.inUse == s0.inUse
    requires IsAssessed(p, Validated(p.options, inDirectory), inDirectory, s0, s.now, cfg)
    requires PastAreGone(s0, s.app) && OnlyUsedLeft(s'.secrets, s'.inUse, p.resource.spec.secretName)
    requires ComesFrom(Keys(s.app), Keys(s'.app), s.issued) && ComesFrom(Passwords(s.app), Passwords(s'.app), s.issued)
    requires var flags := Validated(p.options, inDirectory);
             flags.cleanup && flags.valid ==> p.tx.latest.Some? && OnlyKept(s.app, s'.app, ProtectedBy(p.tx))
    ensures IsCleaned(s0, s', cfg)
  {
    PastStayGone(s0, s, s');
    TransactionProtects(p, s0, cfg);
    if cfg.cleanup && LeavesSet(s0, cfg, s'.now) {
      LeftEarlier(s0, cfg, s.now, s'.now);
      OnlyKeptLeavesOne(s.app, s'.app, ProtectedBy(p.tx));
    }
  }

  /** Everything after the finalizer step. */
  method Synchronize(w: World, p: Prepared, cfg: Config, ghost s0: State)
    returns (ghost installed: Option<Set>, ghost completed: bool)
    requires w.Valid() && IsPrepared(p, s0, cfg) && p.at <= w.now && w.View() == s0.(now := w.now) && IsOurs(p.resource, cfg)
    modifies w
    ensures w.Valid()
    ensures ProcessedEffect(s0, w.View(), cfg, installed, completed) && CleanedUp(s0, w.View(), cfg)
  {
    var valid := Assess(w, p, cfg, s0);
    if valid.Ok? {
      var flags := Validated(p.options, valid.value);
      if flags.synchronize {
        installed, completed := Process(w, p, cfg, flags, valid.value, s0);
        return;
      }
      NothingToDo(p, cfg, valid.value, s0, w.View());
    }
    NotWritingSettles(s0, w.View(), cfg);
    SettledIsProcessed(s0, w.View(), cfg, None);
    return None, false;
  }

  lemma NothingToDo(p: Prepared, cfg: Config, inDirectory: bool, s0: State, s: State)
    requires IsPrepared(p, s0, cfg) && IsAssessed(p, Validated(p.options, inDirectory), inDirectory, s0, s.now, cfg)
    requires !Validated(p.options, inDirectory).synchronize
    ensures !NeedsSynchronization(s0, cfg, s0.now)
  {
  }

  /** Everything after the preparation, during which only time has passed. */
  method ReconcilePrepared(w: World, p: Prepared, cfg: Config, ghost s0: State) returns (ghost report: Report)
    requires w.Valid() && IsPrepared(p, s0, cfg) && p.at <= w.now && w.View() == s0.(now := w.now)
    modifies w
    ensures w.Valid() && !report.Unprepared? && Reconciled(s0, w.View(), cfg, report)
  {
    if p.options.ignored {
      var ok := Orphan(w, p, cfg);
      return Orphaned;
    }
    var processed, ok := ProcessFinalizer(w, p);
    if processed {
      FinalizedFromEarlier(s0, old(w.View()), w.View());
      return Finalized;
    }
    ghost var installed, completed := Synchronize(w, p, cfg, s0);
    return Processed(installed, completed);
  }

  lemma FinalizedFromEarlier(s0: State, s: State, s': State)
    requires s0.resource.Some? && s == s0.(now := s.now) && s0.now <= s.now && FinalizedEffect(s, s')
    ensures FinalizedEffect(s0, s')
  {
  }

  method Reconcile(w: World, cfg: Config) returns (ghost report: Report)
    requires w.Valid()
    modifies w
    ensures w.Valid() && Reconciled(old(w.View()), w.View(), cfg, report)
  {
    var prepared := Prepare(w, cfg);
    if prepared.Err? {
      return Unprepared;
    }
    report := ReconcilePrepared(w, prepared.value, cfg, old(w.View()));
  }
}
