/** What holds over whole runs: reconciles that may fail anywhere, and in between them
    people who edit the resource, pods that come and go, secrets that are deleted, and
    time that passes. Nobody else edits the app in the directory, or what a secret holds. */
module Runs {

  import opened Wrappers
  import opened Annotations
  import opened Secrets
  import opened Revocation
  import opened Environment
  import opened CredentialsClient
  import opened Options
  import opened Reconciler
  import opened Outcomes
  import Completion

  // ------------------------------------------------------------------ runs

  datatype Action = Act(report: Report) | External

  const NO_STATUS := Status("", "", "", None, KeyIds([], []))

  /** What others may do to the resource: create it, edit it, or have it deleted, but not
      take our finalizer off, nor write the status. */
  predicate ResourceEdited(before: Option<Resource>, after: Option<Resource>) {
    match (before, after)
    case (None, None) => true
    case (None, Some(r)) => r.status == NO_STATUS
    case (Some(r), None) => FINALIZER !in r.finalizers
    case (Some(r), Some(r')) =>
      && r'.status == r.status
      && (FINALIZER in r.finalizers ==> FINALIZER in r'.finalizers)
      && (r.deleting ==> r'.deleting)
  }

  ghost predicate ChangedByOthers(before: State, after: State) {
    && after.app == before.app && after.issued == before.issued && after.applied == before.applied
    && after.failures == before.failures
    && before.now <= after.now
    && (forall n :: n in after.secrets ==> n in before.secrets && after.secrets[n] == before.secrets[n])
    && ResourceEdited(before.resource, after.resource)
  }

  ghost predicate Next(before: State, after: State, cfg: Config, action: Action) {
    match action
    case External => ChangedByOthers(before, after)
    case Act(report) => Consistent(after.app, after.issued) && Reconciled(before, after, cfg, report)
  }

  ghost predicate NextAt(states: seq<State>, actions: seq<Action>, cfg: Config, i: nat)
    requires |states| == |actions| + 1 && i < |actions|
  {
    Next(states[i], states[i + 1], cfg, actions[i])
  }

  ghost predicate Run(states: seq<State>, actions: seq<Action>, cfg: Config) {
    && |states| == |actions| + 1
    && forall i :: 0 <= i < |actions| ==> NextAt(states, actions, cfg, i)
  }

  predicate IsProcessed(action: Action) {
    action.Act? && action.report.Processed?
  }

  predicate Installs(action: Action) {
    IsProcessed(action) && action.report.installed.Some?
  }

  // ------------------------------------------------- the credential set

  /** The set in the secret that the status names is registered, but for expired members. */
  predicate CredentialsHold(s: State) {
    && Consistent(s.app, s.issued)
    && (s.resource.Some? && !s.resource.value.deleting && LatestSet(s).Some? ==> SetLives(LatestSet(s).value, s))
  }

  lemma SetLivesLater(set_: Set, s: State, s': State)
    requires SetLives(set_, s) && s'.app == s.app && s'.issued == s.issued && s.now <= s'.now
    ensures SetLives(set_, s')
  {
  }

  /** Two key prefixes come to the same keys. */
  predicate SameKeys(r: Resource, r': Resource) {
    SecretPrefix(r.spec.keyPrefix) == SecretPrefix(r'.spec.keyPrefix)
  }

  /** The latest set changes only when the prefix, the status, or the secret it names does. */
  lemma LatestSetUnchanged(s: State, s': State)
    requires s.resource.Some? && s'.resource.Some?
    requires s'.resource.value.status.secretName == s.resource.value.status.secretName
    requires SameKeys(s.resource.value, s'.resource.value)
    requires var n := s.resource.value.status.secretName;
             n in s'.secrets ==> n in s.secrets && s'.secrets[n] == s.secrets[n]
    ensures LatestSet(s').Some? ==> LatestSet(s') == LatestSet(s)
  {
  }

  lemma ProcessedKeepsCredentials(s: State, s': State, cfg: Config, installed: Option<Set>, completed: bool)
    requires CredentialsHold(s) && s.resource.Some? && ProcessedEffect(s, s', cfg, installed, completed)
    ensures CredentialsHold(s')
  {
    var r, r' := s.resource.value, s'.resource.value;
    if LatestSet(s').Some? {
      if r'.status.secretName == r.spec.secretName && installed.Some? {
        assert LatestSet(s') == installed;
      } else {
        LatestSetUnchanged(s, s');
        ProtectedSetLives(LatestSet(s).value, s, s', ProtectedIn(s));
      }
    }
  }

  /** Whether the spec may get another key prefix: the secret that the status names holds no
      set under it, or one that is registered. */
  predicate IsSafePrefix(s: State, keyPrefix: string)
    requires s.resource.Some?
  {
    var found := SetIn(s.secrets, s.resource.value.status.secretName, NewDataKeys(keyPrefix));
    found.Ok? && found.value.Some? ==> SetLives(found.value.value, s)
  }

  predicate IsSafeEdit(s: State, s': State) {
    s.resource.Some? && s'.resource.Some? && !s'.resource.value.deleting ==> IsSafePrefix(s, s'.resource.value.spec.keyPrefix)
  }

  /** Leaving the prefix as it is, or writing it in another way, is safe. */
  lemma SameKeysAreSafe(s: State, keyPrefix: string)
    requires CredentialsHold(s) && s.resource.Some? && !s.resource.value.deleting
    requires SecretPrefix(keyPrefix) == SecretPrefix(s.resource.value.spec.keyPrefix)
    ensures IsSafePrefix(s, keyPrefix)
  {
    assert NewDataKeys(keyPrefix) == DataKeysOf(s.resource.value);
  }

  lemma OthersKeepCredentials(s: State, s': State)
    requires CredentialsHold(s) && ChangedByOthers(s, s') && IsSafeEdit(s, s')
    ensures CredentialsHold(s')
  {
  }

  /** An edit of the spec keeps the latest set registered exactly if its key prefix is safe. */
  lemma EditIsSafeExactly(s: State, s': State)
    requires CredentialsHold(s) && ChangedByOthers(s, s') && s'.secrets == s.secrets && s'.now == s.now
    ensures CredentialsHold(s') <==> IsSafeEdit(s, s')
  {
  }

  lemma FinalizingKeepsCredentials(s: State, s': State)
    requires CredentialsHold(s) && s.resource.Some? && FinalizedEffect(s, s')
    ensures CredentialsHold(s')
  {
  }

  lemma StepKeepsCredentials(s: State, s': State, cfg: Config, action: Action)
    requires CredentialsHold(s) && Next(s, s', cfg, action)
    requires action == Act(Orphaned) ==> s'.app == s.app
    requires action.External? ==> IsSafeEdit(s, s')
    ensures CredentialsHold(s')
  {
    match action
    case External => OthersKeepCredentials(s, s');
    case Act(Processed(installed, completed)) => ProcessedKeepsCredentials(s, s', cfg, installed, completed);
    case Act(Finalized) => FinalizingKeepsCredentials(s, s');
    case Act(_) =>
      if s.resource.Some? && LatestSet(s).Some? && SetLives(LatestSet(s).value, s) {
        SetLivesLater(LatestSet(s).value, s, s');
      }
  }

  /** No orphan is cleaned up up to `n`, and no key prefix is set that is not safe. */
  ghost predicate SparesCredentials(states: seq<State>, actions: seq<Action>, n: nat)
    requires n <= |actions| && |states| == |actions| + 1
  {
    && (forall k :: 0 <= k < n && actions[k] == Act(Orphaned) ==> states[k + 1].app == states[k].app)
    && (forall k :: 0 <= k < n && actions[k].External? ==> IsSafeEdit(states[k], states[k + 1]))
  }

  /** Whatever fails, and wherever: unless an orphan is cleaned up, or the key prefix set to one
      that is not safe, the set that the status points to is registered at every point of a run. */
  lemma {:induction false} RunKeepsCredentials(states: seq<State>, actions: seq<Action>, cfg: Config, i: nat)
    requires Run(states, actions, cfg) && CredentialsHold(states[0]) && i < |states| && SparesCredentials(states, actions, i)
    ensures CredentialsHold(states[i])
  {
    if i > 0 {
      RunKeepsCredentials(states, actions, cfg, i - 1);
      assert NextAt(states, actions, cfg, i - 1);
      StepKeepsCredentials(states[i - 1], states[i], cfg, actions[i - 1]);
    }
  }

  /** The secret holds no current certificate under the prefix, and so no set. */
  predicate HoldsNothingUnder(s: State, name: string, keyPrefix: string) {
    name in s.secrets ==> NewDataKeys(keyPrefix).current.certificateKeyId !in s.secrets[name]
  }

  lemma NothingIsSafe(s: State, keyPrefix: string)
    requires s.resource.Some? && HoldsNothingUnder(s, s.resource.value.status.secretName, keyPrefix)
    ensures IsSafePrefix(s, keyPrefix)
  {
  }

  /** Some action writes a set to the secret, under the prefix or another way of writing it. */
  predicate InstallsUnder(s: State, action: Action, name: string, keyPrefix: string) {
    && Installs(action) && s.resource.Some?
    && s.resource.value.spec.secretName == name
    && SecretPrefix(s.resource.value.spec.keyPrefix) == SecretPrefix(keyPrefix)
  }

  lemma StillHoldsNothing(s: State, s': State, cfg: Config, action: Action, name: string, keyPrefix: string)
    requires Next(s, s', cfg, action) && HoldsNothingUnder(s, name, keyPrefix) && !InstallsUnder(s, action, name, keyPrefix)
    ensures HoldsNothingUnder(s', name, keyPrefix)
  {
    if Installs(action) {
      InstallingElsewhere(s, s', cfg, action.report.installed, action.report.completed, name, keyPrefix);
    }
  }

  lemma InstallingElsewhere(s: State, s': State, cfg: Config, installed: Option<Set>, completed: bool, name: string, keyPrefix: string)
    requires s.resource.Some? && ProcessedEffect(s, s', cfg, installed, completed) && installed.Some?
    requires HoldsNothingUnder(s, name, keyPrefix)
    requires s.resource.value.spec.secretName == name ==> SecretPrefix(s.resource.value.spec.keyPrefix) != SecretPrefix(keyPrefix)
    ensures HoldsNothingUnder(s', name, keyPrefix)
  {
    if s.resource.value.spec.secretName == name {
      KeyUnderOtherPrefix(s.resource.value.spec.keyPrefix, keyPrefix);
      StaysAbsent(DataOf(s.secrets, name), s'.secrets[name], DataKeysOf(s.resource.value),
                  NewDataKeys(keyPrefix).current.certificateKeyId);
    }
  }

  /** Up to `n`, no set was ever written to the secret under the prefix. */
  ghost predicate NeverInstalledUnder(states: seq<State>, actions: seq<Action>, n: nat, name: string, keyPrefix: string)
    requires n <= |actions| && |states| == |actions| + 1
  {
    && HoldsNothingUnder(states[0], name, keyPrefix)
    && forall k :: 0 <= k < n ==> !InstallsUnder(states[k], actions[k], name, keyPrefix)
  }

  lemma {:induction false} NeverInstalledHoldsNothing(states: seq<State>, actions: seq<Action>, cfg: Config, n: nat,
                                                      name: string, keyPrefix: string)
    requires Run(states, actions, cfg) && n <= |actions| && NeverInstalledUnder(states, actions, n, name, keyPrefix)
    ensures HoldsNothingUnder(states[n], name, keyPrefix)
  {
    if n > 0 {
      NeverInstalledHoldsNothing(states, actions, cfg, n - 1, name, keyPrefix);
      assert NextAt(states, actions, cfg, n - 1);
      StillHoldsNothing(states[n - 1], states[n], cfg, actions[n - 1], name, keyPrefix);
    }
  }

  /** An edit that leaves the prefix as it is, or sets one that the named secret never got a set under. */
  ghost predicate IsFreshEdit(states: seq<State>, actions: seq<Action>, k: nat)
    requires k < |actions| && |states| == |actions| + 1
  {
    states[k].resource.Some? && states[k + 1].resource.Some? && !states[k + 1].resource.value.deleting ==>
      || SameKeys(states[k].resource.value, states[k + 1].resource.value)
      || NeverInstalledUnder(states, actions, k, states[k].resource.value.status.secretName,
                             states[k + 1].resource.value.spec.keyPrefix)
  }

  lemma FreshEditIsSafe(states: seq<State>, actions: seq<Action>, cfg: Config, k: nat)
    requires Run(states, actions, cfg) && k < |actions| && actions[k].External?
    requires CredentialsHold(states[k]) && IsFreshEdit(states, actions, k)
    ensures IsSafeEdit(states[k], states[k + 1])
  {
    var s, s' := states[k], states[k + 1];
    assert NextAt(states, actions, cfg, k);
    if s.resource.Some? && s'.resource.Some? && !s'.resource.value.deleting {
      if SameKeys(s.resource.value, s'.resource.value) {
        SameKeysAreSafe(s, s'.resource.value.spec.keyPrefix);
      } else {
        NeverInstalledHoldsNothing(states, actions, cfg, k, s.resource.value.status.secretName, s'.resource.value.spec.keyPrefix);
        NothingIsSafe(s, s'.resource.value.spec.keyPrefix);
      }
    }
  }

  /** The same by what has happened before: over a run in which the prefix is never changed back to
      one that the secret had a set under, the set that the status points to is always registered. */
  lemma {:induction false} FreshPrefixesKeepCredentials(states: seq<State>, actions: seq<Action>, cfg: Config, i: nat)
    requires Run(states, actions, cfg) && CredentialsHold(states[0]) && i < |states|
    requires forall k :: 0 <= k < i && actions[k] == Act(Orphaned) ==> states[k + 1].app == states[k].app
    requires forall k :: 0 <= k < i && actions[k].External? ==> IsFreshEdit(states, actions, k)
    ensures CredentialsHold(states[i]) && SparesCredentials(states, actions, i)
  {
    if i > 0 {
      FreshPrefixesKeepCredentials(states, actions, cfg, i - 1);
      if actions[i - 1].External? {
        FreshEditIsSafe(states, actions, cfg, i - 1);
      }
      assert NextAt(states, actions, cfg, i - 1);
      StepKeepsCredentials(states[i - 1], states[i], cfg, actions[i - 1]);
    }
  }

  /** A prefix that is not safe: the secret still holds a set from before the prefix was changed,
      which has been revoked since. When the prefix is changed back, that set becomes the latest
      one, and the next validation fails. */
  lemma ChangingBackFails(s: State, s': State, revoked: Set, live: Set, before: Data, app: Metadata, app': Metadata, at: int)
    requires CredentialsHold(s) && ChangedByOthers(s, s') && s'.secrets == s.secrets && s'.now == s.now <= at
    requires HasNoEmptyField(revoked.current) && HasNoEmptyField(revoked.next)
    requires s.resource.Some? && s'.resource.Some? && !s'.resource.value.deleting
    requires var p, q := s'.resource.value.spec.keyPrefix, s.resource.value.spec.keyPrefix;
             && BeginDifferently(p, q)
             && var n := s.resource.value.status.secretName;
                && n != "" && n in s.secrets
                && s.secrets[n] == before + SecretData(app, revoked, NewDataKeys(p)) + SecretData(app', live, NewDataKeys(q))
    requires var id := revoked.current.certificate.keyId;
             id in s.issued && s.issued[id].end > at && forall c :: c in Keys(s.app) ==> c.keyId != id
    ensures LatestSet(s') == Some(revoked)
    ensures !IsSafeEdit(s, s') && !CredentialsHold(s') && !SetUnexpired(revoked, s'.app, at)
  {
    var p, name := s'.resource.value.spec.keyPrefix, s.resource.value.status.secretName;
    SetBesideOther(before, app, app', revoked, live, p, s.resource.value.spec.keyPrefix);
    assert SetIn(s.secrets, name, NewDataKeys(p)) == Ok(Some(revoked));
    RevokedSetIsDead(revoked, s, at);
  }

  lemma RevokedSetIsDead(set_: Set, s: State, at: int)
    requires s.now <= at && set_.current.certificate.keyId in s.issued && s.issued[set_.current.certificate.keyId].end > at
    requires forall c :: c in Keys(s.app) ==> c.keyId != set_.current.certificate.keyId
    ensures !SetLives(set_, s) && !SetUnexpired(set_, s.app, at)
  {
    assert set_.current.certificate.keyId in KeyIdsOf(set_);
  }

  /** So the next validation succeeds, if no member has expired by then. */
  lemma NextValidationSucceeds(states: seq<State>, actions: seq<Action>, cfg: Config, i: nat, at: int)
    requires Run(states, actions, cfg) && CredentialsHold(states[0]) && i < |states| && SparesCredentials(states, actions, i)
    requires states[i].resource.Some? && !states[i].resource.value.deleting && LatestSet(states[i]).Some?
    requires states[i].now <= at
    requires var s := LatestSet(states[i]).value;
             forall id :: id in KeyIdsOf(s) + PasswordIdsOf(s) && id in states[i].issued ==> states[i].issued[id].end > at
    ensures SetUnexpired(LatestSet(states[i]).value, states[i].app, at)
  {
    RunKeepsCredentials(states, actions, cfg, i);
    LivingSetIsValid(LatestSet(states[i]).value, states[i], at);
  }

  // --------------------------------------------------- keys and secrets

  /** The secret that the status names holds the private keys and client secrets that go with its IDs. */
  predicate HoldsItsKeys(s: State) {
    s.resource.Some? ==> LatestOpens(s)
  }

  /** Under another prefix, the secret holds no set, or likewise. */
  predicate IsGenuineEdit(s: State, s': State) {
    s.resource.Some? && s'.resource.Some? ==>
      var found := SetIn(s.secrets, s.resource.value.status.secretName, DataKeysOf(s'.resource.value));
      found.Ok? && found.value.Some? ==> SetOpens(found.value.value, s.issued)
  }

  lemma OpensLater(s: State, s': State)
    requires s.resource.Some? && s'.resource.Some? && LatestOpens(s) && Extends(s.issued, s'.issued)
    requires LatestSet(s').Some? ==> LatestSet(s') == LatestSet(s)
    ensures LatestOpens(s')
  {
  }

  lemma ProcessedHoldsItsKeys(s: State, s': State, cfg: Config, installed: Option<Set>, completed: bool)
    requires s.resource.Some? && HoldsItsKeys(s) && ProcessedEffect(s, s', cfg, installed, completed)
    ensures HoldsItsKeys(s')
  {
    var r, r' := s.resource.value, s'.resource.value;
    if LatestSet(s').Some? {
      if r'.status.secretName == r.spec.secretName && installed.Some? {
        assert LatestSet(s') == installed;
      } else {
        LatestSetUnchanged(s, s');
        OpensLater(s, s');
      }
    }
  }

  lemma EditHoldsItsKeys(s: State, s': State)
    requires ChangedByOthers(s, s') && HoldsItsKeys(s) && IsGenuineEdit(s, s')
    ensures HoldsItsKeys(s')
  {
  }

  lemma SameSecretHoldsItsKeys(s: State, s': State)
    requires HoldsItsKeys(s) && s'.secrets == s.secrets && s'.issued == s.issued
    requires s'.resource.Some? ==>
               && s.resource.Some? && s'.resource.value.spec == s.resource.value.spec
               && s'.resource.value.status == s.resource.value.status
    ensures HoldsItsKeys(s')
  {
  }

  lemma FinalizedHoldsItsKeys(s: State, s': State)
    requires s.resource.Some? && HoldsItsKeys(s) && FinalizedEffect(s, s')
    ensures HoldsItsKeys(s')
  {
    SameSecretHoldsItsKeys(s, s');
  }

  lemma StepHoldsItsKeys(s: State, s': State, cfg: Config, action: Action)
    requires Next(s, s', cfg, action) && HoldsItsKeys(s) && (action.External? ==> IsGenuineEdit(s, s'))
    ensures HoldsItsKeys(s')
  {
    match action
    case External => EditHoldsItsKeys(s, s');
    case Act(Processed(installed, completed)) => ProcessedHoldsItsKeys(s, s', cfg, installed, completed);
    case Act(Finalized) => FinalizedHoldsItsKeys(s, s');
    case Act(_) => SameSecretHoldsItsKeys(s, s');
  }

  /** Over any run, whatever fails, no private key and no client secret is ever mixed up with another. */
  lemma {:induction false} RunHoldsItsKeys(states: seq<State>, actions: seq<Action>, cfg: Config, i: nat)
    requires Run(states, actions, cfg) && HoldsItsKeys(states[0]) && i < |states|
    requires forall k :: 0 <= k < i && actions[k].External? ==> IsGenuineEdit(states[k], states[k + 1])
    ensures HoldsItsKeys(states[i])
  {
    if i > 0 {
      RunHoldsItsKeys(states, actions, cfg, i - 1);
      assert NextAt(states, actions, cfg, i - 1);
      StepHoldsItsKeys(states[i - 1], states[i], cfg, actions[i - 1]);
    }
  }

  // ----------------------------------------------------------- zero downtime

  /** A pod's key: the current certificate of a secret that the pod refers to. */
  predicate IsCurrentKey(s: State, name: string, c: Credential)
  {
    && s.resource.Some?
    && name in s.secrets
    && c.keyId != "" && Holds(s.secrets[name], KeyOf(s, "_APP_CERTIFICATE_KEY_ID"), c.keyId)
  }

  predicate IsCurrentPassword(s: State, name: string, c: Credential)
  {
    && s.resource.Some?
    && name in s.secrets
    && c.keyId != "" && Holds(s.secrets[name], KeyOf(s, "_APP_PASSWORD_KEY_ID"), c.keyId)
  }

  /** In a reconcile that neither deletes nor ignores the resource, whichever call fails, the
      current credentials of every secret in use, and the latest set, stay registered until
      they expire; and the secret stays as well. */
  lemma ZeroDowntime(s: State, s': State, cfg: Config, report: Report, name: string)
    requires Next(s, s', cfg, Act(report)) && s.resource.Some? && name in s.inUse
    requires !s.resource.value.deleting && !IsIgnored(s.resource.value, cfg)
    ensures forall c :: c in Keys(s.app) && IsCurrentKey(s, name, c) && c.end > s'.now ==> c in Keys(s'.app)
    ensures forall c :: c in Passwords(s.app) && IsCurrentPassword(s, name, c) && c.end > s'.now ==> c in Passwords(s'.app)
    ensures forall latest, c | IsLatest(s, latest) && c in Keys(s.app) && c.end > s'.now ::
              c.keyId in [latest.current.certificate.keyId, latest.next.certificate.keyId] ==> c in Keys(s'.app)
    ensures forall latest, c | IsLatest(s, latest) && c in Passwords(s.app) && c.end > s'.now ::
              c.keyId in [latest.current.password.keyId, latest.next.password.keyId] ==> c in Passwords(s'.app)
    ensures name in s.secrets ==> name in s'.secrets
  {
    var p := ProtectedIn(s);
    forall c | IsCurrentKey(s, name, c)
      ensures c.keyId in p.keyIds
    {
    }
    forall c | IsCurrentPassword(s, name, c)
      ensures c.keyId in p.passwordIds
    {
    }
    forall latest | IsLatest(s, latest)
      ensures LatestSet(s) == Some(latest)
    {
      LatestExactly(s, latest);
    }
  }

  /** The resource is there, and is neither deleted nor ignored. */
  predicate IsKept(s: State, cfg: Config) {
    s.resource.Some? && !s.resource.value.deleting && !IsIgnored(s.resource.value, cfg)
  }

  /** Over a run in which the secret is in use whenever there is a reconcile, with its current
      credentials unchanged, these stay registered until they expire. */
  lemma {:induction false} RunKeepsUsedCredentials(states: seq<State>, actions: seq<Action>, cfg: Config, name: string,
                                                   key: Credential, password: Credential, i: nat)
    requires Run(states, actions, cfg) && i < |states|
    requires forall k :: 0 <= k < i && actions[k].Act? ==> IsKept(states[k], cfg) && name in states[k].inUse
    requires forall k :: 0 <= k < i && actions[k].Act? ==>
               IsCurrentKey(states[k], name, key) && IsCurrentPassword(states[k], name, password)
    requires key in Keys(states[0].app) && password in Passwords(states[0].app)
    ensures key.end > states[i].now ==> key in Keys(states[i].app)
    ensures password.end > states[i].now ==> password in Passwords(states[i].app)
  {
    if i > 0 {
      RunKeepsUsedCredentials(states, actions, cfg, name, key, password, i - 1);
      var s, s' := states[i - 1], states[i];
      assert NextAt(states, actions, cfg, i - 1);
      if actions[i - 1].Act? {
        ZeroDowntime(s, s', cfg, actions[i - 1].report, name);
      }
    }
  }

  /** The current certificate of a secret in use is protected, where nothing else protects it,
      exactly if the secret was written under the present key prefix, or another way of writing
      the same. */
  lemma ProtectedUnderPrefix(s: State, name: string, app: Metadata, set_: Set, keyPrefix: string)
    requires s.resource.Some? && name in s.inUse && name in s.secrets
    requires s.secrets[name] == SecretData(app, set_, NewDataKeys(keyPrefix))
    requires HasNoEmptyField(set_.current) && HasNoEmptyField(set_.next)
    requires IsOtherwiseUnprotected(s, name, set_.current)
    ensures var same := SecretPrefix(keyPrefix) == SecretPrefix(s.resource.value.spec.keyPrefix);
            && (set_.current.certificate.keyId in ProtectedIn(s).keyIds <==> same)
            && (set_.current.password.keyId in ProtectedIn(s).passwordIds <==> same)
  {
    ReadUnderPrefix(app, set_, keyPrefix, s.resource.value.spec.keyPrefix);
  }

  /** No other secret in use, and no member of the latest set, has these IDs. */
  predicate IsOtherwiseUnprotected(s: State, name: string, c: Credentials)
    requires s.resource.Some?
  {
    var keys, latest := DataKeysOf(s.resource.value), LatestSet(s);
    && (latest.Some? ==> c.certificate.keyId !in KeyIdsOf(latest.value) && c.password.keyId !in PasswordIdsOf(latest.value))
    && (forall n :: n in s.inUse && n in s.secrets && n != name ==>
          && NonEmptyValue(s.secrets[n], keys.current.certificateKeyId) != Some(c.certificate.keyId)
          && NonEmptyValue(s.secrets[n], keys.current.passwordKeyId) != Some(c.password.keyId))
  }

  /** So after the prefix has been changed, a pod's credentials are revoked by the next clean-up
      or rotation, unless they are the newest ones. */
  lemma OtherPrefixIsRevoked(s: State, name: string, app: Metadata, set_: Set, keyPrefix: string, i: nat, j: nat)
    requires s.resource.Some? && name in s.inUse && name in s.secrets
    requires s.secrets[name] == SecretData(app, set_, NewDataKeys(keyPrefix))
    requires HasNoEmptyField(set_.current) && HasNoEmptyField(set_.next)
    requires IsOtherwiseUnprotected(s, name, set_.current)
    requires SecretPrefix(keyPrefix) != SecretPrefix(s.resource.value.spec.keyPrefix)
    requires i < |Keys(s.app)| && Keys(s.app)[i].keyId == set_.current.certificate.keyId
    requires HasManaged(Keys(s.app)) && i != NewestIndex(Keys(s.app))
    requires j < |Passwords(s.app)| && Passwords(s.app)[j].keyId == set_.current.password.keyId
    requires HasManaged(Passwords(s.app)) && j != NewestIndex(Passwords(s.app))
    ensures Keys(s.app)[i] in Revoked(Keys(s.app), ProtectedIn(s).keyIds)
    ensures Passwords(s.app)[j] in Revoked(Passwords(s.app), ProtectedIn(s).passwordIds)
  {
    ProtectedUnderPrefix(s, name, app, set_, keyPrefix);
    NewestIsKept(Keys(s.app), ProtectedIn(s).keyIds);
    NewestIsKept(Passwords(s.app), ProtectedIn(s).passwordIds);
  }

  // -------------------------------------------------------------- rotation

  /** An action that installs nothing, and does not change the prefix, leaves the latest set as
      it is, or none at all. */
  lemma LatestSetLasts(s: State, s': State, cfg: Config, action: Action)
    requires Next(s, s', cfg, action) && !Installs(action)
    requires s.resource.Some? && s'.resource.Some? && SameKeys(s.resource.value, s'.resource.value)
    ensures LatestSet(s').Some? ==> LatestSet(s') == LatestSet(s)
  {
    match action
    case External => LatestSetUnchanged(s, s');
    case Act(Processed(installed, completed)) => LatestSetUnchanged(s, s');
    case Act(_) => LatestSetUnchanged(s, s');
  }

  predicate HasLatestSet(s: State) {
    s.resource.Some? && LatestSet(s).Some?
  }

  /** The k-th action installs nothing, and the set can be read before and after it, under the same keys. */
  predicate LastsAt(states: seq<State>, actions: seq<Action>, k: nat)
    requires k < |actions| && |states| == |actions| + 1
  {
    && !Installs(actions[k])
    && HasLatestSet(states[k]) && HasLatestSet(states[k + 1])
    && SameKeys(states[k].resource.value, states[k + 1].resource.value)
  }

  lemma LatestSetLastsAt(states: seq<State>, actions: seq<Action>, cfg: Config, k: nat)
    requires Run(states, actions, cfg) && k < |actions| && LastsAt(states, actions, k)
    ensures LatestSet(states[k + 1]) == LatestSet(states[k])
  {
    assert NextAt(states, actions, cfg, k);
    LatestSetLasts(states[k], states[k + 1], cfg, actions[k]);
  }

  ghost predicate LastsBetween(states: seq<State>, actions: seq<Action>, i: nat, j: nat)
    requires j <= |actions| && |states| == |actions| + 1
  {
    forall k :: i <= k < j ==> LastsAt(states, actions, k)
  }

  lemma {:induction false} LatestSetLastsOverRun(states: seq<State>, actions: seq<Action>, cfg: Config, i: nat, j: nat)
    requires Run(states, actions, cfg) && i <= j < |states| && HasLatestSet(states[i])
    requires LastsBetween(states, actions, i, j)
    ensures HasLatestSet(states[j]) && LatestSet(states[j]) == LatestSet(states[i])
  {
    if i < j {
      LatestSetLastsOverRun(states, actions, cfg, i, j - 1);
      LatestSetLastsAt(states, actions, cfg, j - 1);
    }
  }

  lemma IssuedByStep(s: State, s': State, cfg: Config, action: Action)
    requires Next(s, s', cfg, action)
    ensures Extends(s.issued, s'.issued)
  {
  }

  /** IDs are never forgotten. */
  lemma {:induction false} IssuedOverRun(states: seq<State>, actions: seq<Action>, cfg: Config, i: nat, j: nat)
    requires Run(states, actions, cfg) && i <= j < |states|
    ensures Extends(states[i].issued, states[j].issued)
  {
    if i < j {
      IssuedOverRun(states, actions, cfg, i, j - 1);
      assert NextAt(states, actions, cfg, j - 1);
      IssuedByStep(states[j - 1], states[j], cfg, actions[j - 1]);
    }
  }

  /** A completed installation makes its set the latest one, with IDs that were issued. */
  lemma InstalledIsLatest(s: State, s': State, cfg: Config, action: Action)
    requires Next(s, s', cfg, action) && Installs(action) && action.report.completed && HasLatestSet(s')
    ensures LatestSet(s') == action.report.installed
    ensures action.report.installed.value.next.certificate.keyId in s'.issued
  {
    var set_ := action.report.installed.value;
    assert set_.next.certificate.keyId in KeyIdsOf(set_);
  }

  /** The i-th action installs a set, and the j-th another, or the same, and in between the secret stays,
      under the same keys. */
  ghost predicate AreSuccessive(states: seq<State>, actions: seq<Action>, i: nat, j: nat)
    requires |states| == |actions| + 1
  {
    && i < j < |actions| && Installs(actions[i]) && actions[i].report.completed && Installs(actions[j])
    && HasLatestSet(states[i + 1]) && LastsBetween(states, actions, i + 1, j)
  }

  lemma InstalledIsLatestAt(states: seq<State>, actions: seq<Action>, cfg: Config, i: nat)
    requires Run(states, actions, cfg) && i < |actions|
    requires Installs(actions[i]) && actions[i].report.completed && HasLatestSet(states[i + 1])
    ensures LatestSet(states[i + 1]) == actions[i].report.installed
    ensures actions[i].report.installed.value.next.certificate.keyId in states[i + 1].issued
  {
    assert NextAt(states, actions, cfg, i);
    InstalledIsLatest(states[i], states[i + 1], cfg, actions[i]);
  }

  lemma EarlierIsLatest(states: seq<State>, actions: seq<Action>, cfg: Config, i: nat, j: nat)
    requires Run(states, actions, cfg) && AreSuccessive(states, actions, i, j)
    ensures HasLatestSet(states[j]) && LatestSet(states[j]) == actions[i].report.installed
  {
    InstalledIsLatestAt(states, actions, cfg, i);
    LatestSetLastsOverRun(states, actions, cfg, i + 1, j);
  }

  lemma EarlierIsKnown(states: seq<State>, actions: seq<Action>, cfg: Config, i: nat, j: nat)
    requires Run(states, actions, cfg) && AreSuccessive(states, actions, i, j)
    ensures actions[i].report.installed.value.next.certificate.keyId in states[j].issued
  {
    InstalledIsLatestAt(states, actions, cfg, i);
    IssuedOverRun(states, actions, cfg, i + 1, j);
  }

  lemma InstalledAsAsked(s: State, s': State, cfg: Config, earlier: Set, action: Action)
    requires Next(s, s', cfg, action) && Installs(action)
    requires HasLatestSet(s) && LatestSet(s) == Some(earlier) && earlier.next.certificate.keyId in s.issued
    ensures var later, due := action.report.installed.value, IsRotationDue(s.resource.value);
            && (due ==> later != earlier && (HandsOver(earlier, later, s.issued) || AllNew(later, s.issued)))
            && (!due ==> later == earlier || AllNew(later, s.issued))
            && (IsUsable(s, cfg, earlier, s'.now) ==> if due then HandsOver(earlier, later, s.issued) else later == earlier)
  {
    LatestExactly(s, earlier);
    SetAsAsked(s, s', cfg, earlier, action.report.installed.value, action.report.completed);
  }

  /** Between two installations in a run: if the later one was asked to rotate, its set is another one,
      with the next credentials of the earlier as its current ones; otherwise it is the same one. Only a
      set that cannot be used any more gives way to an altogether new one. */
  lemma RotationHandsOver(states: seq<State>, actions: seq<Action>, cfg: Config, i: nat, j: nat)
    requires Run(states, actions, cfg) && AreSuccessive(states, actions, i, j)
    ensures var earlier, later := actions[i].report.installed.value, actions[j].report.installed.value;
            var due := states[j].resource.Some? && IsRotationDue(states[j].resource.value);
            && states[j].resource.Some?
            && (due ==> later != earlier && (HandsOver(earlier, later, states[j].issued) || AllNew(later, states[j].issued)))
            && (!due ==> later == earlier || AllNew(later, states[j].issued))
            && (IsUsable(states[j], cfg, earlier, states[j + 1].now) ==>
                  if due then HandsOver(earlier, later, states[j].issued) else later == earlier)
  {
    EarlierIsLatest(states, actions, cfg, i, j);
    EarlierIsKnown(states, actions, cfg, i, j);
    assert NextAt(states, actions, cfg, j);
    InstalledAsAsked(states[j], states[j + 1], cfg, actions[i].report.installed.value, actions[j]);
  }

  /** A reconcile that installs a set revokes no unexpired member of the one that it replaces. */
  lemma InstallingRevokesNoMember(s: State, s': State, cfg: Config, set_: Set, completed: bool)
    requires s.resource.Some? && ProcessedEffect(s, s', cfg, Some(set_), completed)
    requires LatestSet(s).Some? && CredentialsHold(s)
    ensures SetLives(LatestSet(s).value, s') && SetLives(set_, s')
  {
  }

  // --------------------------------------------------------------- no leak

  predicate IsGuarded(s: State) {
    s.app.Some? ==> s.resource.Some? && FINALIZER in s.resource.value.finalizers
  }

  predicate Preserves(s: State) {
    s.resource.Some? && PRESERVE_KEY in Items(s.resource.value)
  }

  /** Our finalizer is taken off a guarded app only when the app is gone, or, if it is to be
      preserved, when its credentials are, provided that no call failed. */
  lemma ReleaseIsClean(s: State, s': State, cfg: Config, action: Action)
    requires Next(s, s', cfg, action) && IsGuarded(s) && !IsGuarded(s')
    ensures action.Act? && action.report.Finalized? && Preserves(s) && s.resource.value.deleting
    ensures s'.failures == s.failures ==> Keys(s'.app) == [] && Passwords(s'.app) == []
  {
  }

  /** A new app is registered only for a resource that already carries the finalizer. */
  lemma RegistrationIsGuarded(s: State, s': State, cfg: Config, action: Action)
    requires Next(s, s', cfg, action) && s.app.None? && s'.app.Some?
    ensures IsProcessed(action) && s.resource.Some? && FINALIZER in s.resource.value.finalizers
  {
  }

  /** An app that is in the directory is never left behind, unless it was to be preserved. */
  lemma {:induction false} NoLeak(states: seq<State>, actions: seq<Action>, cfg: Config, i: nat)
    requires Run(states, actions, cfg) && IsGuarded(states[0]) && i < |states|
    requires forall k :: 0 <= k < i && actions[k].Act? && actions[k].report.Finalized? ==> !Preserves(states[k])
    ensures IsGuarded(states[i])
  {
    if i > 0 {
      NoLeak(states, actions, cfg, i - 1);
      if !IsGuarded(states[i]) {
        assert NextAt(states, actions, cfg, i - 1);
        ReleaseIsClean(states[i - 1], states[i], cfg, actions[i - 1]);
      }
    }
  }

  // ------------------------------------------------- spec and directory

  /** Where the status says that the spec has been dealt with, the app has been brought to it. */
  predicate FollowsSpec(s: State) {
    s.resource.Some? && s.resource.value.status.hash == s.resource.value.spec.hash ==> s.applied == s.resource.value.spec.hash
  }

  /** The spec is set back to what the status has, after the app has been brought to another one. */
  predicate IsSetBack(s: State, s': State) {
    && s'.resource.Some? && s'.resource.value.spec.hash == s'.resource.value.status.hash != s.applied
    && (s.resource.Some? ==> s.resource.value.spec.hash != s'.resource.value.spec.hash)
  }

  /** Whatever fails, a reconcile does not say that it has dealt with a spec that it has not. */
  lemma ReconcileFollowsSpec(s: State, s': State, cfg: Config, report: Report)
    requires Next(s, s', cfg, Act(report)) && FollowsSpec(s)
    ensures FollowsSpec(s')
    ensures report.Processed? && report.completed ==> s'.resource.Some? && s'.applied == s'.resource.value.spec.hash
  {
  }

  /** Of the edits, only one that sets the spec back to an earlier one takes the app away from it. */
  lemma EditIsFollowedExactly(s: State, s': State)
    requires ChangedByOthers(s, s') && FollowsSpec(s)
    ensures FollowsSpec(s') <==> !IsSetBack(s, s')
  {
  }

  /** Over any run without such an edit, the app has been brought to every spec that the status tells of. */
  lemma {:induction false} DirectoryFollowsSpec(states: seq<State>, actions: seq<Action>, cfg: Config, i: nat)
    requires Run(states, actions, cfg) && FollowsSpec(states[0]) && i < |states|
    requires forall k :: 0 <= k < i && actions[k].External? ==> !IsSetBack(states[k], states[k + 1])
    ensures FollowsSpec(states[i])
  {
    if i > 0 {
      DirectoryFollowsSpec(states, actions, cfg, i - 1);
      assert NextAt(states, actions, cfg, i - 1);
      if actions[i - 1].External? {
        EditIsFollowedExactly(states[i - 1], states[i]);
      } else {
        ReconcileFollowsSpec(states[i - 1], states[i], cfg, actions[i - 1].report);
      }
    }
  }

  /** After one, no reconcile brings the app back to the spec, as long as nobody asks for it. */
  lemma SetBackGoesUnnoticed(s: State, s': State, cfg: Config, report: Report)
    requires Next(s, s', cfg, Act(report)) && s.app.Some? && !FollowsSpec(s)
    requires !HasAnnotation(s.resource.value, "azure.nais.io/resync")
    ensures s'.resource.Some? ==> !FollowsSpec(s')
  {
  }

  // ------------------------------------------------------------ quiescence

  function Pending(s: State): nat {
    if s.resource.Some? then |Queue(Items(s.resource.value), RESYNCHRONIZE_KEY)| else 0
  }

  function Completions(actions: seq<Action>, n: nat): nat
    requires n <= |actions|
  {
    if n == 0 then
      0
    else
      Completions(actions, n - 1) + if IsProcessed(actions[n - 1]) && actions[n - 1].report.completed then 1 else 0
  }

  /** Nothing but queued entries calls for a synchronization. */
  ghost predicate IsSettled(s: State) {
    && s.resource.Some?
    && var r := s.resource.value;
       !HashChanged(r) && !SecretNameChanged(r) && !HasRotate(r)
  }

  /** In between, only time passes, and the set stays valid. */
  ghost predicate Undisturbed(s: State, s': State, cfg: Config, action: Action) {
    && (action.External? || IsProcessed(action))
    && (action.External? ==> s' == s.(now := s'.now))
    && s.resource.Some? && !LatestIsInvalid(s, cfg, s'.now)
  }

  lemma SettledStep(s: State, s': State, cfg: Config, action: Action)
    requires Next(s, s', cfg, action) && IsSettled(s) && Undisturbed(s, s', cfg, action)
    ensures IsSettled(s')
    ensures if IsProcessed(action) && action.report.completed then Pending(s') + 1 == Pending(s) else Pending(s') == Pending(s)
    ensures Pending(s) == 0 && IsProcessed(action) ==> action.report.installed.None? && s'.resource == s.resource
    ensures IsProcessed(action) && s'.failures == s.failures ==> (action.report.completed <==> Pending(s) > 0)
  {
    var m := Items(s.resource.value);
    RemoveRefinesDequeue(m, RESYNCHRONIZE_KEY);
    if IsProcessed(action) {
      assert s'.resource.value.spec == s.resource.value.spec;
      if action.report.completed {
        assert RESYNCHRONIZE_KEY in m;
        assert ROTATE_KEY !in RemovedFrom(m, RESYNCHRONIZE_KEY);
      }
    }
  }

  ghost predicate UndisturbedAt(states: seq<State>, actions: seq<Action>, cfg: Config, k: nat)
    requires |states| == |actions| + 1 && k < |actions|
  {
    Undisturbed(states[k], states[k + 1], cfg, actions[k])
  }

  lemma SettledStepOfRun(states: seq<State>, actions: seq<Action>, cfg: Config, k: nat)
    requires Run(states, actions, cfg) && k < |actions| && IsSettled(states[k]) && UndisturbedAt(states, actions, cfg, k)
    ensures IsSettled(states[k + 1])
    ensures Completions(actions, k + 1) + Pending(states[k + 1]) == Completions(actions, k) + Pending(states[k])
  {
    assert NextAt(states, actions, cfg, k);
    SettledStep(states[k], states[k + 1], cfg, actions[k]);
  }

  /** With k entries queued and nothing else to do, exactly k reconciles complete before the
      queue is empty, and none after that: completed reconciles and entries left add up to k. */
  lemma {:induction false} QueuedEntriesAreWorkedOff(states: seq<State>, actions: seq<Action>, cfg: Config, i: nat)
    requires Run(states, actions, cfg) && IsSettled(states[0]) && i < |states|
    requires forall k :: 0 <= k < i ==> UndisturbedAt(states, actions, cfg, k)
    ensures IsSettled(states[i])
    ensures Completions(actions, i) + Pending(states[i]) == Pending(states[0])
  {
    if i > 0 {
      QueuedEntriesAreWorkedOff(states, actions, cfg, i - 1);
      SettledStepOfRun(states, actions, cfg, i - 1);
    }
  }
}
