/** What one reconcile comes to: which set the secret holds, what calls for writing it, what is
    cleaned up, and whose resources are left alone. The conditions are written out here in the
    terms of the resource, the secrets and the directory. */
module Outcomes {

  import opened Wrappers
  import opened Secrets
  import opened Revocation
  import opened Environment
  import opened KeyCredential
  import opened CredentialsClient
  import opened Options
  import opened Reconciler

  // ---------------------------------------------------------- conditions

  predicate HasAnnotation(r: Resource, key: string) {
    r.annotations.Some? && key in r.annotations.value
  }

  /** A rotation is asked for by an annotation, or by another name for the secret. */
  predicate IsRotationDue(r: Resource) {
    HasAnnotation(r, "azure.nais.io/rotate") || r.spec.secretName != r.status.secretName
  }

  predicate HasAged(r: Resource, maxAge: int, at: int) {
    r.status.rotationTime.Some? && r.status.rotationTime.value + maxAge <= at
  }

  ghost predicate IsSubstring(s: string, sub: string) {
    exists a: string, b: string :: s == a + sub + b
  }

  /** The secret that the status names holds this set, under the keys of the spec. */
  predicate IsLatest(s: State, set_: Set)
    requires s.resource.Some?
  {
    var r := s.resource.value;
    var prefix := SecretPrefix(r.spec.keyPrefix);
    && r.status.secretName != "" && r.status.secretName in s.secrets
    && var data := s.secrets[r.status.secretName];
       && HoldsCurrent(data, prefix, set_.current) && HasNoEmptyField(set_.current)
       && HoldsNext(data, prefix, set_.next) && HasNoEmptyField(set_.next)
  }

  lemma LatestExactly(s: State, set_: Set)
    requires s.resource.Some?
    ensures LatestSet(s) == Some(set_) <==> IsLatest(s, set_)
  {
    var r := s.resource.value;
    if r.status.secretName in s.secrets {
      ExtractedExactly(s.secrets[r.status.secretName], r.spec.keyPrefix, set_);
    }
  }

  predicate IsUnexpired(creds: seq<Credential>, id: string, at: int) {
    exists c :: c in creds && c.keyId == id && c.end > at
  }

  /** The set can be used: the directory has all of it, it is not too old, and was written for our tenant. */
  ghost predicate IsUsable(s: State, cfg: Config, set_: Set, at: int)
    requires s.resource.Some?
  {
    && IsUnexpired(Keys(s.app), set_.current.certificate.keyId, at)
    && IsUnexpired(Keys(s.app), set_.next.certificate.keyId, at)
    && IsUnexpired(Passwords(s.app), set_.current.password.keyId, at)
    && IsUnexpired(Passwords(s.app), set_.next.password.keyId, at)
    && !HasAged(s.resource.value, cfg.maxAge, at)
    && IsSubstring(s.resource.value.status.tenant, cfg.tenantId)
  }

  lemma ContainsExactly(s: string, sub: string)
    ensures Contains(s, sub) <==> IsSubstring(s, sub)
  {
    if Contains(s, sub) {
      var i :| 0 <= i <= |s| && sub <= s[i..];
      assert s == s[..i] + sub + s[i + |sub|..] by {
        assert s[i..][..|sub|] == sub;
      }
    }
    if IsSubstring(s, sub) {
      var a: string, b: string :| s == a + sub + b;
      assert sub <= s[|a|..];
    }
  }

  lemma UnexpiredExactly(set_: Set, app: Option<Application>, at: int)
    ensures SetUnexpired(set_, app, at) <==>
            && IsUnexpired(Keys(app), set_.current.certificate.keyId, at)
            && IsUnexpired(Keys(app), set_.next.certificate.keyId, at)
            && IsUnexpired(Passwords(app), set_.current.password.keyId, at)
            && IsUnexpired(Passwords(app), set_.next.password.keyId, at)
  {
    assert set_.current.certificate.keyId in KeyIdsOf(set_) && set_.next.certificate.keyId in KeyIdsOf(set_);
    assert set_.current.password.keyId in PasswordIdsOf(set_) && set_.next.password.keyId in PasswordIdsOf(set_);
    assert forall id :: HasUnexpired(Keys(app), id, at) <==> IsUnexpired(Keys(app), id, at);
    assert forall id :: HasUnexpired(Passwords(app), id, at) <==> IsUnexpired(Passwords(app), id, at);
  }

  lemma UsableExactly(s: State, cfg: Config, set_: Set, at: int)
    requires s.resource.Some? && IsLatest(s, set_)
    ensures !LatestIsInvalid(s, cfg, at) <==> IsUsable(s, cfg, set_, at)
  {
    LatestExactly(s, set_);
    ContainsExactly(s.resource.value.status.tenant, cfg.tenantId);
    UnexpiredExactly(set_, s.app, at);
  }

  // ----------------------------------------------------- the set written

  predicate AllNew(set_: Set, issued: Issued) {
    && set_.current.certificate.keyId !in issued && set_.next.certificate.keyId !in issued
    && set_.current.password.keyId !in issued && set_.next.password.keyId !in issued
  }

  /** What was next is now current, and what is next is new. */
  predicate HandsOver(earlier: Set, later: Set, issued: Issued) {
    && later.current == earlier.next
    && later.next.certificate.keyId !in issued && later.next.password.keyId !in issued
  }

  lemma NewExactly(set_: Set, issued: Issued)
    ensures IsNew(set_, issued) <==> AllNew(set_, issued)
  {
    assert set_.current.certificate.keyId in KeyIdsOf(set_) && set_.next.certificate.keyId in KeyIdsOf(set_);
    assert set_.current.password.keyId in PasswordIdsOf(set_) && set_.next.password.keyId in PasswordIdsOf(set_);
  }

  lemma ChosenAsAsked(s: State, cfg: Config, at: int, latest: Set, set_: Set)
    requires s.resource.Some? && s.now <= at && (IsReused(s, cfg, set_) || IsReplaced(s, at, cfg, set_))
    requires IsLatest(s, latest) && latest.next.certificate.keyId in s.issued
    ensures var due := IsRotationDue(s.resource.value);
            && (due ==> set_ != latest && (HandsOver(latest, set_, s.issued) || AllNew(set_, s.issued)))
            && (!due ==> set_ == latest || AllNew(set_, s.issued))
            && (IsUsable(s, cfg, latest, at) ==> if due then HandsOver(latest, set_, s.issued) else set_ == latest)
            && (!IsUsable(s, cfg, latest, s.now) ==> AllNew(set_, s.issued))
  {
    LatestExactly(s, latest);
    NewExactly(set_, s.issued);
    UsableExactly(s, cfg, latest, s.now);
    UsableExactly(s, cfg, latest, at);
  }

  /** The set that a reconcile writes is never the one that was there if a rotation is due: it is that
      one rotated, or, if that one cannot be used, an altogether new one. If no rotation is due, and
      the set that is there can be used, it is left as it is. */
  lemma SetAsAsked(s: State, s': State, cfg: Config, latest: Set, set_: Set, completed: bool)
    requires Reconciled(s, s', cfg, Processed(Some(set_), completed))
    requires IsLatest(s, latest) && latest.next.certificate.keyId in s.issued
    ensures var due := IsRotationDue(s.resource.value);
            && (due ==> set_ != latest && (HandsOver(latest, set_, s.issued) || AllNew(set_, s.issued)))
            && (!due ==> set_ == latest || AllNew(set_, s.issued))
            && (IsUsable(s, cfg, latest, s'.now) ==> if due then HandsOver(latest, set_, s.issued) else set_ == latest)
            && (!IsUsable(s, cfg, latest, s.now) ==> AllNew(set_, s.issued))
  {
    ChosenAsAsked(s, cfg, s'.now, latest, set_);
  }

  /** Where there was no set, a new one is written. */
  lemma FirstSetIsNew(s: State, s': State, cfg: Config, set_: Set, completed: bool)
    requires Reconciled(s, s', cfg, Processed(Some(set_), completed))
    requires forall latest :: !IsLatest(s, latest)
    ensures AllNew(set_, s.issued)
  {
    NewExactly(set_, s.issued);
    if LatestSet(s).Some? {
      LatestExactly(s, LatestSet(s).value);
    }
  }

  // ------------------------------------------------- what calls for work

  /** Why a reconcile has something to do. */
  ghost predicate HasWork(s: State, cfg: Config, at: int)
    requires s.resource.Some?
  {
    var r := s.resource.value;
    || r.spec.hash != r.status.hash
    || HasAnnotation(r, "azure.nais.io/resync")
    || IsRotationDue(r)
    || forall latest :: IsLatest(s, latest) ==> !IsUsable(s, cfg, latest, at)
  }

  lemma WorkExactly(s: State, cfg: Config, at: int)
    requires s.resource.Some?
    ensures HasWork(s, cfg, at) <==> NeedsSynchronization(s, cfg, at)
  {
    forall latest | IsLatest(s, latest)
      ensures LatestSet(s) == Some(latest) && (LatestIsInvalid(s, cfg, at) <==> !IsUsable(s, cfg, latest, at))
    {
      LatestExactly(s, latest);
      UsableExactly(s, cfg, latest, at);
    }
    if LatestSet(s).Some? {
      LatestExactly(s, LatestSet(s).value);
    }
  }

  /** Whatever there is to do is done, if no call fails, and the secret and the resource are left alone
      if there is nothing to do. */
  lemma WorkIsDone(s: State, s': State, cfg: Config, installed: Option<Set>, completed: bool)
    requires Reconciled(s, s', cfg, Processed(installed, completed))
    ensures s'.failures == s.failures && HasWork(s, cfg, s.now) ==> completed && installed.Some?
    ensures !HasWork(s, cfg, s'.now) ==>
              && installed.None? && s'.resource == s.resource
              && SameAt(s.secrets, s'.secrets, s.resource.value.spec.secretName)
  {
    WorkExactly(s, cfg, s.now);
    WorkExactly(s, cfg, s'.now);
  }

  // ----------------------------------------------------------- the secret

  /** Whoever reads the secret finds the app that the directory has, where to get tokens, and the set. */
  lemma SecretTells(s: State, s': State, cfg: Config, set_: Set, completed: bool)
    requires Reconciled(s, s', cfg, Processed(Some(set_), completed))
    ensures var spec := s.resource.value.spec;
            && s'.app.Some? && spec.secretName in s'.secrets
            && var data, prefix := s'.secrets[spec.secretName], SecretPrefix(spec.keyPrefix);
               && Holds(data, prefix + "_APP_CLIENT_ID", s'.app.value.clientId)
               && Holds(data, prefix + "_APP_TENANT_ID", cfg.tenantId)
               && Holds(data, prefix + "_APP_PRE_AUTHORIZED_APPS", s.validApps)
               && Holds(data, prefix + "_APP_WELL_KNOWN_URL", cfg.endpoints.wellKnownUrl)
               && Holds(data, prefix + "_OPENID_CONFIG_ISSUER", cfg.endpoints.issuer)
               && Holds(data, prefix + "_OPENID_CONFIG_JWKS_URI", cfg.endpoints.jwksUri)
               && Holds(data, prefix + "_OPENID_CONFIG_TOKEN_ENDPOINT", cfg.endpoints.tokenEndpoint)
               && HoldsCurrent(data, prefix, set_.current) && HoldsNext(data, prefix, set_.next)
               && Holds(data, prefix + "_APP_JWKS", "[" + data[prefix + "_APP_JWK"] + "]")
    ensures s.app.Some? ==> s'.app.value.clientId == s.app.value.clientId
  {
  }

  /** The private keys and the client secrets of the set are those that its IDs were issued with. */
  predicate IsGenuine(set_: Set, issued: Issued) {
    && Opens(set_.current.certificate.jwk.material, set_.current.certificate.keyId, issued)
    && Opens(set_.current.password.clientSecret, set_.current.password.keyId, issued)
    && Opens(set_.next.certificate.jwk.material, set_.next.certificate.keyId, issued)
    && Opens(set_.next.password.clientSecret, set_.next.password.keyId, issued)
  }

  /** The directory has a credential of this ID, if it has not expired. */
  predicate IsAccepted(creds: seq<Credential>, id: string, s: State) {
    id in s.issued && (s.issued[id].end > s.now ==> exists c :: c in creds && c.keyId == id)
  }

  lemma InstalledCanBeUsed(s: State, s': State, cfg: Config, set_: Set)
    requires s.resource.Some? && IsInstalled(s, s', cfg, set_)
    requires forall latest :: IsLatest(s, latest) ==> IsGenuine(latest, s.issued)
    ensures IsGenuine(set_, s'.issued)
    ensures IsAccepted(Keys(s'.app), set_.current.certificate.keyId, s') && IsAccepted(Keys(s'.app), set_.next.certificate.keyId, s')
    ensures IsAccepted(Passwords(s'.app), set_.current.password.keyId, s') && IsAccepted(Passwords(s'.app), set_.next.password.keyId, s')
  {
    if LatestSet(s).Some? {
      LatestExactly(s, LatestSet(s).value);
    }
    LivingIsAccepted(set_, s');
  }

  /** A set that is written can be used: all of it is registered, with the keys and secrets that go with it,
      as long as this was so with the set that it takes over from. */
  lemma SetCanBeUsed(s: State, s': State, cfg: Config, set_: Set, completed: bool)
    requires Reconciled(s, s', cfg, Processed(Some(set_), completed))
    requires forall latest :: IsLatest(s, latest) ==> IsGenuine(latest, s.issued)
    ensures IsGenuine(set_, s'.issued)
    ensures IsAccepted(Keys(s'.app), set_.current.certificate.keyId, s') && IsAccepted(Keys(s'.app), set_.next.certificate.keyId, s')
    ensures IsAccepted(Passwords(s'.app), set_.current.password.keyId, s') && IsAccepted(Passwords(s'.app), set_.next.password.keyId, s')
  {
    InstalledCanBeUsed(s, s', cfg, set_);
  }

  lemma LivingIsAccepted(set_: Set, s: State)
    requires SetLives(set_, s)
    ensures IsAccepted(Keys(s.app), set_.current.certificate.keyId, s) && IsAccepted(Keys(s.app), set_.next.certificate.keyId, s)
    ensures IsAccepted(Passwords(s.app), set_.current.password.keyId, s) && IsAccepted(Passwords(s.app), set_.next.password.keyId, s)
  {
    assert set_.current.certificate.keyId in KeyIdsOf(set_) && set_.next.certificate.keyId in KeyIdsOf(set_);
    assert set_.current.password.keyId in PasswordIdsOf(set_) && set_.next.password.keyId in PasswordIdsOf(set_);
  }

  // ----------------------------------------------------------- the status

  function KeyOf(s: State, suffix: string): string
    requires s.resource.Some?
  {
    SecretPrefix(s.resource.value.spec.keyPrefix) + suffix
  }

  /** An ID that a secret in use has under the key. */
  predicate IsUsedId(s: State, suffix: string, id: string)
    requires s.resource.Some?
  {
    id != "" && exists n :: n in s.inUse && n in s.secrets &&
                            Holds(s.secrets[n], KeyOf(s, suffix), id)
  }

  lemma UsedExactly(s: State, suffix: string)
    requires s.resource.Some?
    ensures forall id :: id in CurrentIn(s.secrets, s.inUse, KeyOf(s, suffix)) <==> IsUsedId(s, suffix, id)
  {
  }

  /** The set in the secret has IDs that were issued. */
  ghost predicate LatestIsKnown(s: State)
    requires s.resource.Some?
  {
    forall latest :: IsLatest(s, latest) ==> latest.next.certificate.keyId in s.issued
  }

  lemma LatestIsReusedExactly(s: State, cfg: Config, at: int, set_: Set)
    requires s.resource.Some? && LatestIsKnown(s) && (IsReused(s, cfg, set_) || IsReplaced(s, at, cfg, set_))
    ensures IsReused(s, cfg, set_) <==> IsLatest(s, set_)
    ensures IsReplaced(s, at, cfg, set_) <==> !IsLatest(s, set_)
  {
    LatestExactly(s, set_);
    NewExactly(set_, s.issued);
  }

  /** The IDs are those that pods use, and perhaps another one. */
  predicate AreUsedIds(s: State, ids: seq<string>, suffix: string, other: Option<string>)
    requires s.resource.Some?
  {
    && (forall id :: id in ids ==> IsUsedId(s, suffix, id) || other == Some(id))
    && (forall n :: n in s.inUse && n in s.secrets ==>
          var key := KeyOf(s, suffix);
          key in s.secrets[n] && s.secrets[n][key] != "" ==> s.secrets[n][key] in ids)
    && (other.Some? ==> other.value in ids)
  }

  lemma IdsInSet(ids: seq<string>, all: set<string>)
    requires (set id | id in ids) == all
    ensures forall id :: id in ids <==> id in all
  {
  }

  lemma UsedIdsExactly(s: State, ids: seq<string>, suffix: string, other: Option<string>)
    requires s.resource.Some?
    requires (set id | id in ids) == CurrentIn(s.secrets, s.inUse, KeyOf(s, suffix)) + (if other.Some? then {other.value} else {})
    ensures AreUsedIds(s, ids, suffix, other)
  {
    UsedExactly(s, suffix);
    IdsInSet(ids, CurrentIn(s.secrets, s.inUse, KeyOf(s, suffix)) + (if other.Some? then {other.value} else {}));
    forall n | n in s.inUse && n in s.secrets && KeyOf(s, suffix) in s.secrets[n] && s.secrets[n][KeyOf(s, suffix)] != ""
      ensures s.secrets[n][KeyOf(s, suffix)] in ids
    {
      assert NonEmptyValue(s.secrets[n], KeyOf(s, suffix)).value in CurrentIn(s.secrets, s.inUse, KeyOf(s, suffix));
    }
  }

  lemma ToldExactly(s: State, at: int, cfg: Config, set_: Set, rotationTime: Option<int>, keyIds: KeyIds)
    requires s.resource.Some? && LatestIsKnown(s) && IsTold(s, at, cfg, set_, rotationTime, keyIds)
    ensures if IsLatest(s, set_) then
              && rotationTime == s.resource.value.status.rotationTime
              && AreUsedIds(s, keyIds.certificate, "_APP_CERTIFICATE_KEY_ID", None)
              && AreUsedIds(s, keyIds.password, "_APP_PASSWORD_KEY_ID", None)
            else
              && rotationTime.Some? && s.now <= rotationTime.value <= at
              && AreUsedIds(s, keyIds.certificate, "_APP_CERTIFICATE_KEY_ID", Some(set_.current.certificate.keyId))
              && AreUsedIds(s, keyIds.password, "_APP_PASSWORD_KEY_ID", Some(set_.current.password.keyId))
  {
    LatestIsReusedExactly(s, cfg, at, set_);
    if IsLatest(s, set_) {
      UsedIdsExactly(s, keyIds.certificate, "_APP_CERTIFICATE_KEY_ID", None);
      UsedIdsExactly(s, keyIds.password, "_APP_PASSWORD_KEY_ID", None);
    } else {
      UsedIdsExactly(s, keyIds.certificate, "_APP_CERTIFICATE_KEY_ID", Some(set_.current.certificate.keyId));
      UsedIdsExactly(s, keyIds.password, "_APP_PASSWORD_KEY_ID", Some(set_.current.password.keyId));
    }
  }

  /** The status tells of the spec that was acted on, and of the IDs that pods use. If the set is
      another one than before, it tells of that set as well, and of the time. */
  lemma StatusTells(s: State, s': State, cfg: Config, set_: Set)
    requires Reconciled(s, s', cfg, Processed(Some(set_), true)) && LatestIsKnown(s)
    ensures var spec, status := s.resource.value.spec, s'.resource.value.status;
            && status.secretName == spec.secretName && status.hash == spec.hash && status.tenant == cfg.tenantId
            && if IsLatest(s, set_) then
                 && status.rotationTime == s.resource.value.status.rotationTime
                 && AreUsedIds(s, status.keyIds.certificate, "_APP_CERTIFICATE_KEY_ID", None)
                 && AreUsedIds(s, status.keyIds.password, "_APP_PASSWORD_KEY_ID", None)
               else
                 && status.rotationTime.Some? && s.now <= status.rotationTime.value <= s'.now
                 && AreUsedIds(s, status.keyIds.certificate, "_APP_CERTIFICATE_KEY_ID", Some(set_.current.certificate.keyId))
                 && AreUsedIds(s, status.keyIds.password, "_APP_PASSWORD_KEY_ID", Some(set_.current.password.keyId))
  {
    var status := s'.resource.value.status;
    ToldExactly(s, s'.now, cfg, set_, status.rotationTime, status.keyIds);
  }

  /** So a set is replaced for its age only once it has reached that age. */
  lemma AgeStartsAnew(s: State, s': State, cfg: Config, set_: Set, at: int)
    requires Reconciled(s, s', cfg, Processed(Some(set_), true)) && LatestIsKnown(s)
    requires !IsLatest(s, set_) && at < s.now + cfg.maxAge
    ensures !HasAged(s'.resource.value, cfg.maxAge, at)
  {
    StatusTells(s, s', cfg, set_);
  }

  // ---------------------------------------------------------- the app

  /** A completed reconcile has brought the app to the spec if there was no app, the spec has changed since
      the last one, or somebody has asked for it; otherwise it has left it as it was. */
  lemma AppIsBroughtToSpec(s: State, s': State, cfg: Config, installed: Option<Set>)
    requires Reconciled(s, s', cfg, Processed(installed, true))
    ensures var r := s.resource.value;
            var due := s.app.None? || r.spec.hash != r.status.hash || HasAnnotation(r, "azure.nais.io/resync");
            && s'.app.Some? && s'.resource.value.status.hash == r.spec.hash
            && s'.applied == if due then r.spec.hash else s.applied
  {
  }

  /** A resource that is being deleted is let go of once its app is gone, or, where this is to be preserved,
      its credentials are. */
  lemma DeletedIsLetGo(s: State, s': State, cfg: Config)
    requires Reconciled(s, s', cfg, Finalized) && s'.failures == s.failures
    requires var r := s.resource.value;
             r.deleting && ("azure.nais.io/finalizer" in r.finalizers || "finalizer.azurerator.nais.io" in r.finalizers)
    ensures s'.resource.Some? ==>
              && "azure.nais.io/finalizer" !in s'.resource.value.finalizers
              && "finalizer.azurerator.nais.io" !in s'.resource.value.finalizers
    ensures if HasAnnotation(s.resource.value, "azure.nais.io/preserve") then
              s'.app.Some? == s.app.Some? && Keys(s'.app) == [] && Passwords(s'.app) == []
            else
              s'.app.None?
  {
  }

  // -------------------------------------------------------- the clean-up

  /** If no call fails, what was past is gone from the directory, and every secret that no pod uses is
      gone, but the resource's own. */
  lemma PastAndUnusedAreGone(s: State, s': State, cfg: Config, installed: Option<Set>, completed: bool)
    requires Reconciled(s, s', cfg, Processed(installed, completed)) && s'.failures == s.failures
    ensures forall c :: c in Keys(s.app) && c.end <= s.now ==> c !in Keys(s'.app)
    ensures forall c :: c in Passwords(s.app) && c.end < s.now ==> c !in Passwords(s'.app)
    ensures forall n :: n in s.secrets && n !in s.inUse && n != s.resource.value.spec.secretName ==> n !in s'.secrets
  {
  }

  predicate IsNeededKey(s: State, latest: Set, id: string)
    requires s.resource.Some?
  {
    id == latest.current.certificate.keyId || id == latest.next.certificate.keyId || IsUsedId(s, "_APP_CERTIFICATE_KEY_ID", id)
  }

  predicate IsNeededPassword(s: State, latest: Set, id: string)
    requires s.resource.Some?
  {
    id == latest.current.password.keyId || id == latest.next.password.keyId || IsUsedId(s, "_APP_PASSWORD_KEY_ID", id)
  }

  lemma ProtectedExactly(s: State, latest: Set)
    requires s.resource.Some? && IsLatest(s, latest)
    ensures forall id :: id in ProtectedIn(s).keyIds <==> IsNeededKey(s, latest, id)
    ensures forall id :: id in ProtectedIn(s).passwordIds <==> IsNeededPassword(s, latest, id)
  {
    LatestExactly(s, latest);
    UsedExactly(s, "_APP_CERTIFICATE_KEY_ID");
    UsedExactly(s, "_APP_PASSWORD_KEY_ID");
  }

  predicate CarriesOurName(c: Credential) {
    c.displayName.Some? && "azurerator" <= c.displayName.value
  }

  predicate SomeAreOurs(creds: seq<Credential>) {
    exists c :: c in creds && CarriesOurName(c)
  }

  /** No two keys are needless, if any is ours. */
  predicate AtMostOneNeedlessKey(s: State, latest: Set, keys: seq<Credential>)
    requires s.resource.Some?
  {
    SomeAreOurs(keys) ==>
      forall c, d | c in keys && d in keys ::
        IsNeededKey(s, latest, c.keyId) || IsNeededKey(s, latest, d.keyId) || c == d
  }

  predicate AtMostOneNeedlessPassword(s: State, latest: Set, passwords: seq<Credential>)
    requires s.resource.Some?
  {
    SomeAreOurs(passwords) ==>
      forall c, d | c in passwords && d in passwords ::
        IsNeededPassword(s, latest, c.keyId) || IsNeededPassword(s, latest, d.keyId) || c == d
  }

  lemma NeedlessExactly(s: State, latest: Set, keys: seq<Credential>, passwords: seq<Credential>)
    requires s.resource.Some? && IsLatest(s, latest)
    requires LeavesOne(keys, ProtectedIn(s).keyIds) && LeavesOne(passwords, ProtectedIn(s).passwordIds)
    ensures AtMostOneNeedlessKey(s, latest, keys) && AtMostOneNeedlessPassword(s, latest, passwords)
  {
    ProtectedExactly(s, latest);
    assert forall c :: CarriesOurName(c) ==> IsManaged(c);
  }

  /** Where this is set up, and the set stays as it is, the credentials that neither pods nor the set
      need are gone as well, but for the newest one. */
  lemma NeedlessAreGone(s: State, s': State, cfg: Config, latest: Set, installed: Option<Set>, completed: bool)
    requires Reconciled(s, s', cfg, Processed(installed, completed)) && s'.failures == s.failures && cfg.cleanup
    requires IsLatest(s, latest) && IsUsable(s, cfg, latest, s'.now) && !IsRotationDue(s.resource.value)
    ensures AtMostOneNeedlessKey(s, latest, Keys(s'.app)) && AtMostOneNeedlessPassword(s, latest, Passwords(s'.app))
  {
    UsableExactly(s, cfg, latest, s'.now);
    NeedlessExactly(s, latest, Keys(s'.app), Passwords(s'.app));
  }

  /** Whatever pods or the latest set need stays in the directory until it expires, even if calls fail. */
  lemma NeededStay(s: State, s': State, cfg: Config, latest: Set, installed: Option<Set>, completed: bool)
    requires Reconciled(s, s', cfg, Processed(installed, completed)) && IsLatest(s, latest)
    ensures forall c :: c in Keys(s.app) && IsNeededKey(s, latest, c.keyId) && c.end > s'.now ==> c in Keys(s'.app)
    ensures forall c :: c in Passwords(s.app) && IsNeededPassword(s, latest, c.keyId) && c.end > s'.now ==> c in Passwords(s'.app)
  {
    ProtectedExactly(s, latest);
  }

  // ---------------------------------------------------------- the tenants

  /** Nothing but the app's removal happens to what is another tenant's. */
  predicate IsLeftAlone(s: State, s': State, cfg: Config) {
    && s'.secrets == s.secrets && s'.resource == s.resource && s'.issued == s.issued
    && (s'.app == s.app || (cfg.cleanupOrphans && s'.app.None?))
  }

  /** A resource that names another tenant is left alone; one that names none is, if naming ours is
      required. An app of a resource that names ours is never removed as an orphan. */
  lemma TenantsAreKeptApart(s: State, s': State, cfg: Config, report: Report)
    requires Reconciled(s, s', cfg, report) && s.resource.Some?
    ensures var tenant := s.resource.value.spec.tenant;
            if tenant == cfg.tenantName != "" || (tenant == "" && !cfg.tenantRequired) then
              && report != Orphaned
              && (s.app.Some? && s'.app.None? ==> s.resource.value.deleting)
            else
              IsLeftAlone(s, s', cfg)
  {
  }
}
