/** Updating an app in the directory: its roles and scopes are patched, what depends on them is
    processed, and only then is what has been disabled deleted. */
module ApplicationClient {

  import opened Applications
  import opened ApplicationUpdate
  import opened Assignments
  import opened Entitlements
  import opened PermissionIds
  import opened PermissionLists
  import opened Permissions
  import opened PreAuthorized
  import opened Wrappers

  function GrantsOf(rules: seq<Rule>): seq<Option<Grants>> {
    seq(|rules|, i requires 0 <= i < |rules| => rules[i].grants)
  }

  /** The names of the permissions that the rules ask for. */
  function RequestedBy(rules: seq<Rule>): set<string> {
    Requested(GrantsOf(rules))
  }

  // ------------------------------------------------- what the rules come to

  /** Some rule names the permission, as a role or as a scope. */
  predicate IsNamedBy(rules: seq<Rule>, n: string) {
    exists rule :: rule in rules && rule.grants.Some? && (n in rule.grants.value.roles || n in rule.grants.value.scopes)
  }

  lemma NamedExactly(rules: seq<Rule>)
    ensures forall n :: n in RequestedBy(rules) <==> IsNamedBy(rules, n)
  {
    RequestedExactly(GrantsOf(rules));
    forall n
      ensures IsGranted(GrantsOf(rules), n) <==> IsNamedBy(rules, n)
    {
      assert forall i :: 0 <= i < |rules| ==> rules[i].grants == GrantsOf(rules)[i];
    }
  }

  /** The list has an enabled entry of the name. */
  predicate HasEnabled(list: seq<Entry>, n: string, kind: string) {
    exists e :: e in list && e.value == n && e.kind == kind && e.enabled
  }

  /** The list has exactly the permissions that rules name, as roles or as scopes, and the two default
      ones, each once, and all of them enabled. */
  ghost predicate Exposes(list: seq<Entry>, kind: string, rules: seq<Rule>) {
    && (forall rule, n :: rule in rules && rule.grants.Some? && n in rule.grants.value.roles ==> HasEnabled(list, n, kind))
    && (forall rule, n :: rule in rules && rule.grants.Some? && n in rule.grants.value.scopes ==> HasEnabled(list, n, kind))
    && HasEnabled(list, "access_as_application", kind) && HasEnabled(list, "defaultaccess", kind)
    && (forall e :: e in list ==>
          && e.enabled && e.kind == kind && e.description == e.value
          && (IsNamedBy(rules, e.value) || e.value == "access_as_application" || e.value == "defaultaccess"))
    && (forall i, j :: 0 <= i < j < |list| ==> list[i].value != list[j].value)
  }

  ghost predicate FollowRules(scopes: seq<Entry>, roles: seq<Entry>, rules: seq<Rule>) {
    Exposes(scopes, "Admin", rules) && Exposes(roles, "Application", rules)
  }

  lemma ListExposes(list: seq<Entry>, m: EntryMap, side: Side, rules: seq<Rule>)
    requires Lists(list, m) && m.Keys == Names(RequestedBy(rules))
    requires forall n :: n in m ==> m[n] == NewEntry(side, m[n].id, n)
    ensures Exposes(list, if side == Roles then "Application" else "Admin", rules)
  {
    NamedExactly(rules);
    var kind := if side == Roles then "Application" else "Admin";
    forall n | n in m
      ensures HasEnabled(list, n, kind)
    {
      assert m[n] in list;
    }
  }

  lemma UpdatedFollowRules(scopes: seq<Entry>, roles: seq<Entry>, rules: seq<Rule>, newId: string -> string, e: Entries)
    requires Keyed(e) && AreListed(scopes, roles, Updated(RequestedBy(rules), newId, e))
    ensures FollowRules(scopes, roles, rules)
  {
    UpdateReachesSpec(RequestedBy(rules), newId, e, Scopes);
    UpdateReachesSpec(RequestedBy(rules), newId, e, Roles);
    ListExposes(scopes, Updated(RequestedBy(rules), newId, e).scopes, Scopes, rules);
    ListExposes(roles, Updated(RequestedBy(rules), newId, e).roles, Roles, rules);
  }

  // ------------------------------------------------------------- entries

  function EntriesOf(scopes: seq<Entry>, roles: seq<Entry>): (e: Entries)
    ensures Keyed(e)
  {
    Entries(ToMap(scopes), ToMap(roles))
  }

  /** Two lists that hold the entries. */
  ghost predicate AreListed(scopes: seq<Entry>, roles: seq<Entry>, e: Entries) {
    Lists(scopes, e.scopes) && Lists(roles, e.roles)
  }

  lemma ListedEntries(scopes: seq<Entry>, roles: seq<Entry>, e: Entries)
    requires AreListed(scopes, roles, e)
    ensures EntriesOf(scopes, roles) == e
  {
    ListedMap(scopes, e.scopes);
    ListedMap(roles, e.roles);
  }

  lemma PatchedIsKeyed(requested: set<string>, newId: string -> string, e: Entries)
    requires Keyed(e)
    ensures Keyed(Patched(requested, newId, e))
  {
    RequestIsKeyed(e, Request(requested, newId, false));
  }

  /** The default scope and the default role have the IDs that are reserved for them. */
  predicate HaveDefaultIds(scopes: seq<Entry>, roles: seq<Entry>) {
    && (forall e :: e in scopes && e.value == "defaultaccess" ==> e.id == "00000000-1337-d34d-b33f-000000000000")
    && (forall e :: e in roles && e.value == "access_as_application" ==> e.id == "00000001-abcd-9001-0000-000000000000")
  }

  lemma CreatedHasDefaultIds(scopes: seq<Entry>, roles: seq<Entry>, requested: set<string>, newId: string -> string)
    requires AreListed(scopes, roles, Created(requested, newId))
    ensures HaveDefaultIds(scopes, roles)
  {
    var created := Created(requested, newId);
    assert created.scopes["defaultaccess"] == DefaultEntry(Scopes);
    assert created.roles["access_as_application"] == DefaultEntry(Roles);
  }

  /** What a new app is registered with. */
  method Register(rules: seq<Rule>, newId: string -> string) returns (r: Result<Registration>)
    ensures r.Ok? ==> fresh(r.value) && r.value.Valid() && r.value.preAuthorized == []
    ensures r.Ok? ==> EntriesOf(r.value.scopes, r.value.roles) == Created(RequestedBy(rules), newId)
    ensures r.Ok? ==> FollowRules(r.value.scopes, r.value.roles, rules) && HaveDefaultIds(r.value.scopes, r.value.roles)
  {
    var desired := GenerateDesiredPermissionSet(GrantsOf(rules), newId);
    var roles := DescribeCreate(Roles, desired);
    var scopes := DescribeCreate(Scopes, desired);
    ListedEntries(scopes, roles, Created(RequestedBy(rules), newId));
    CreateIsUpdateFromNothing(RequestedBy(rules), newId);
    UpdatedFollowRules(scopes, roles, rules, newId, Entries(map[], map[]));
    CreatedHasDefaultIds(scopes, roles, RequestedBy(rules), newId);
    var fails: bool := *;
    if fails {
      return Err;
    }
    var reg := new Registration(scopes, roles);
    return Ok(reg);
  }

  method GetSelfByClientId(dir: Directory, self: Self, cache: Cache) returns (r: Result<App>)
    requires cache.Valid()
    modifies cache
    ensures cache.Valid() && AsksOnly(old(cache.history), cache.history, dir.apps) && old(cache.now) <= cache.now
    ensures old(cache.failures) <= cache.failures
    ensures r.Err? && HasUniqueClientIds(dir.apps) && HasApp(dir, self) ==> old(cache.failures) < cache.failures
  {
    if HasUniqueClientIds(dir.apps) && HasApp(dir, self) {
      ghost var a :| a in dir.apps && a.name == self.name && a.clientId == self.clientId;
      ClientIdLookup(dir.apps, a);
    }
    r := GetSingle(dir.apps, ByClientId(self.clientId), cache);
  }

  /** The first patch: it adds and it disables, and deletes nothing. */
  method UpdateRegistration(reg: Registration, rules: seq<Rule>, newId: string -> string, dir: Directory, self: Self, cache: Cache)
    returns (ok: bool)
    requires cache.Valid()
    modifies reg`scopes, reg`roles, reg`failures, cache
    ensures cache.Valid() && AsksOnly(old(cache.history), cache.history, dir.apps) && old(cache.now) <= cache.now
    ensures old(cache.failures) <= cache.failures && old(reg.failures) <= reg.failures
    ensures !ok && HasUniqueClientIds(dir.apps) && HasApp(dir, self) ==>
              old(cache.failures) < cache.failures || old(reg.failures) < reg.failures
    ensures EntriesOf(reg.scopes, reg.roles) == EntriesOf(old(reg.scopes), old(reg.roles)) ||
            EntriesOf(reg.scopes, reg.roles) == Patched(RequestedBy(rules), newId, EntriesOf(old(reg.scopes), old(reg.roles)))
    ensures ok ==> AreListed(reg.scopes, reg.roles, Patched(RequestedBy(rules), newId, EntriesOf(old(reg.scopes), old(reg.roles))))
  {
    var app := GetSelfByClientId(dir, self, cache);
    if app.Err? {
      return false;
    }
    ghost var e := EntriesOf(reg.scopes, reg.roles);
    var desired := GeneratePreservingExisting(GrantsOf(rules), newId, reg.scopes, reg.roles);
    DesiredNames(RequestedBy(rules), newId, e);
    var roles := DescribeUpdate(Roles, desired, reg.roles);
    var scopes := DescribeUpdate(Scopes, desired, reg.scopes);
    ListedEntries(scopes, roles, Patched(RequestedBy(rules), newId, e));
    ok := reg.PatchPermissions(scopes, roles);
  }

  /** The last patch: what has been disabled is deleted. */
  method RemoveDisabledPermissions(reg: Registration, ghost e: Entries) returns (ok: bool)
    requires AreListed(reg.scopes, reg.roles, e)
    modifies reg`scopes, reg`roles, reg`failures
    ensures reg.failures == if ok then old(reg.failures) else old(reg.failures) + 1
    ensures EntriesOf(reg.scopes, reg.roles) == e || EntriesOf(reg.scopes, reg.roles) == Cleaned(e)
    ensures ok ==> EntriesOf(reg.scopes, reg.roles) == Cleaned(e) && AreListed(reg.scopes, reg.roles, Cleaned(e))
  {
    ListedEntries(reg.scopes, reg.roles, e);
    var scopes := RemoveDisabled(reg.scopes);
    var roles := RemoveDisabled(reg.roles);
    ListsEnabled(reg.scopes, e.scopes);
    ListsEnabled(reg.roles, e.roles);
    ListedEntries(scopes, roles, Cleaned(e));
    ok := reg.PatchPermissions(scopes, roles);
  }

  /** What the update comes to, with all that depends on the permissions. */
  datatype Outcome = Outcome(apps: Apps, permissions: PermissionMap)

  function OutcomeOf(dir: Directory, self: Self, rules: seq<Rule>, e: Entries): Outcome {
    Outcome(DesiredApps(rules, dir, self), Extracted(e.scopes, e.roles))
  }

  /** On a directory in order, with which the cache agreed before, the dependents are processed exactly
      if every assignment that is to be made, and is there already, is of a tagged app. */
  predicate SucceedsIfItCan(dir: Directory, before: seq<Question>, self: Self, rules: seq<Rule>, e: Entries, current: set<Assignment>,
                            ok: bool) {
    var valid := DesiredApps(rules, dir, self).valid;
    CanBeJudged(dir, before, self, current, valid) ==>
      (ok <==> AllThereAreOurs(dir, current, RoleKeys(valid, Extracted(e.scopes, e.roles), self)))
  }

  lemma SucceedsBefore(dir: Directory, before: seq<Question>, after: seq<Question>, self: Self, rules: seq<Rule>, e: Entries,
                       current: set<Assignment>, ok: bool)
    requires AsksOnly(before, after, dir.apps) && SucceedsIfItCan(dir, after, self, rules, e, current, ok)
    ensures SucceedsIfItCan(dir, before, self, rules, e, current, ok)
  {
    if AgreedBefore(dir, before) {
      AgreementIsKept(before, after, dir.apps);
    }
  }

  /** What has become of the dependents: each part is untouched, or processed for the patched entries. */
  ghost predicate AreProcessed(dir: Directory, self: Self, rules: seq<Rule>, patched: Entries, before: seq<Question>, history: seq<Question>,
                               since: int, from: seq<Entitled>, until: seq<Entitled>, current: set<Assignment>, after: set<Assignment>,
                               kept: set<string>, managed: set<Assignment>, ok: bool) {
    var valid, permissions := DesiredApps(rules, dir, self).valid, Extracted(patched.scopes, patched.roles);
    && (ok || until != from ==> IsPatched(dir, before, history, since, from, until, valid, permissions, kept))
    && (ok || after != current ==>
          IsProcessed(dir, before, history, since, current, after, RoleKeys(valid, permissions, self), managed, ok))
  }

  lemma DependentsBefore(dir: Directory, self: Self, rules: seq<Rule>, patched: Entries, before: seq<Question>, middle: seq<Question>,
                         history: seq<Question>, later: int, since: int, from: seq<Entitled>, until: seq<Entitled>,
                         current: set<Assignment>, after: set<Assignment>, kept: set<string>, managed: set<Assignment>, ok: bool)
    requires AreProcessed(dir, self, rules, patched, middle, history, later, from, until, current, after, kept, managed, ok)
    requires AsksOnly(before, middle, dir.apps) && since <= later
    ensures AreProcessed(dir, self, rules, patched, before, history, since, from, until, current, after, kept, managed, ok)
  {
    var valid, permissions := DesiredApps(rules, dir, self).valid, Extracted(patched.scopes, patched.roles);
    if ok || until != from {
      PatchedBefore(dir, before, middle, history, history, later, since, from, until, valid, permissions, kept);
    }
    if ok || after != current {
      ProcessedBefore(dir, before, middle, history, history, later, since, current, after, RoleKeys(valid, permissions, self), managed, ok);
    }
  }

  /** The part that create and update share. The permissions are those of the lists that were
      sent, among them the ones that have been disabled. */
  method ProcessDependents(reg: Registration, d: Remote, dir: Directory, cache: Cache, self: Self, rules: seq<Rule>,
                           scopes: seq<Entry>, roles: seq<Entry>, ghost e: Entries)
    returns (r: Result<Outcome>, ghost kept: set<string>, ghost managed: set<Assignment>)
    requires reg.Valid() && d.Valid() && cache.Valid()
    requires AreListed(scopes, roles, e) && Keyed(e) && HasDistinctIds(e)
    modifies reg`preAuthorized, reg`failures, d, cache
    ensures reg.Valid() && d.Valid() && cache.Valid()
    ensures AsksOnly(old(cache.history), cache.history, dir.apps) && old(cache.now) <= cache.now
    ensures old(cache.failures) <= cache.failures && old(reg.failures) <= reg.failures && old(d.failures) <= d.failures
    ensures cache.failures == old(cache.failures) && reg.failures == old(reg.failures) && d.failures == old(d.failures) ==>
              SucceedsIfItCan(dir, old(cache.history), self, rules, e, old(d.current), r.Ok?)
    ensures r.Ok? ==> r.value == OutcomeOf(dir, self, rules, e)
    ensures AreProcessed(dir, self, rules, e, old(cache.history), cache.history, old(cache.now), old(reg.preAuthorized),
                         reg.preAuthorized, old(d.current), d.current, kept, managed, r.Ok?)
  {
    kept, managed := {}, {};
    var ok := reg.OtherStep();
    if !ok {
      return Err, kept, managed;
    }
    var permissions := ExtractPermissions(scopes, roles);
    ListedEntries(scopes, roles, e);
    ExtractedIdsAreDistinct(e);
    var apps;
    apps, kept, managed := Process(reg, d, dir, cache, self, rules, permissions);
    if apps.Err? {
      return Err, kept, managed;
    }
    ok := reg.OtherStep();
    if !ok {
      return Err, kept, managed;
    }
    r := Ok(Outcome(apps.value, permissions));
  }

  lemma PatchedIsDistinct(requested: set<string>, newId: string -> string, e: Entries)
    requires Keyed(e) && HasDistinctIds(e) && AreNewIds(newId, e)
    ensures Keyed(Patched(requested, newId, e)) && HasDistinctIds(Patched(requested, newId, e))
  {
    PatchKeepsIdsDistinct(requested, newId, e);
    PatchedIsKeyed(requested, newId, e);
  }

  lemma NothingProcessed(dir: Directory, self: Self, rules: seq<Rule>, patched: Entries, before: seq<Question>, history: seq<Question>,
                         since: int, from: seq<Entitled>, current: set<Assignment>, kept: set<string>, managed: set<Assignment>)
    ensures AreProcessed(dir, self, rules, patched, before, history, since, from, from, current, current, kept, managed, false)
    ensures !DirectoryIsInOrder(dir, self) ==> SucceedsIfItCan(dir, before, self, rules, patched, current, false)
  {
  }

  /** The dependents are processed for what has been patched, with what was asked in the meantime. */
  method ProcessPatched(reg: Registration, d: Remote, dir: Directory, cache: Cache, self: Self, rules: seq<Rule>, ghost patched: Entries,
                        ghost before: seq<Question>, ghost since: int)
    returns (r: Result<Outcome>, ghost kept: set<string>, ghost managed: set<Assignment>)
    requires reg.Valid() && d.Valid() && cache.Valid()
    requires AreListed(reg.scopes, reg.roles, patched) && Keyed(patched) && HasDistinctIds(patched)
    requires AsksOnly(before, cache.history, dir.apps) && since <= cache.now
    modifies reg`preAuthorized, reg`failures, d, cache
    ensures reg.Valid() && d.Valid() && cache.Valid()
    ensures AsksOnly(before, cache.history, dir.apps) && since <= cache.now
    ensures old(cache.failures) <= cache.failures && old(reg.failures) <= reg.failures && old(d.failures) <= d.failures
    ensures cache.failures == old(cache.failures) && reg.failures == old(reg.failures) && d.failures == old(d.failures) ==>
              SucceedsIfItCan(dir, before, self, rules, patched, old(d.current), r.Ok?)
    ensures r.Ok? ==> r.value == OutcomeOf(dir, self, rules, patched)
    ensures AreProcessed(dir, self, rules, patched, before, cache.history, since, old(reg.preAuthorized),
                         reg.preAuthorized, old(d.current), d.current, kept, managed, r.Ok?)
  {
    ghost var middle, later, from, current := cache.history, cache.now, reg.preAuthorized, d.current;
    r, kept, managed := ProcessDependents(reg, d, dir, cache, self, rules, reg.scopes, reg.roles, patched);
    DependentsBefore(dir, self, rules, patched, before, middle, cache.history, later, since, from, reg.preAuthorized, current, d.current,
                     kept, managed, r.Ok?);
    if cache.failures == old(cache.failures) && reg.failures == old(reg.failures) && d.failures == old(d.failures) {
      SucceedsBefore(dir, before, middle, self, rules, patched, current, r.Ok?);
    }
  }

  /** The first patch, and the step that follows it. */
  method PatchRegistration(reg: Registration, rules: seq<Rule>, newId: string -> string, dir: Directory, self: Self, cache: Cache)
    returns (ok: bool)
    requires cache.Valid()
    modifies reg`scopes, reg`roles, reg`failures, cache
    ensures cache.Valid() && AsksOnly(old(cache.history), cache.history, dir.apps) && old(cache.now) <= cache.now
    ensures old(cache.failures) <= cache.failures && old(reg.failures) <= reg.failures
    ensures !ok && DirectoryIsInOrder(dir, self) ==> old(cache.failures) < cache.failures || old(reg.failures) < reg.failures
    ensures EntriesOf(reg.scopes, reg.roles) == EntriesOf(old(reg.scopes), old(reg.roles)) ||
            EntriesOf(reg.scopes, reg.roles) == Patched(RequestedBy(rules), newId, EntriesOf(old(reg.scopes), old(reg.roles)))
    ensures ok ==> AreListed(reg.scopes, reg.roles, Patched(RequestedBy(rules), newId, EntriesOf(old(reg.scopes), old(reg.roles))))
  {
    ok := UpdateRegistration(reg, rules, newId, dir, self, cache);
    if ok {
      ok := reg.OtherStep();
    }
  }

  /** What depends on a permission has been released by the time that it is deleted. */
  ghost predicate AreReleased(dir: Directory, before: seq<Question>, history: seq<Question>, since: int, patched: Entries, updated: Entries,
                              from: seq<Entitled>, until: seq<Entitled>, current: set<Assignment>, after: set<Assignment>) {
    forall side: Side, n :: n in Of(patched, side) && n !in Of(updated, side) ==>
      && !Of(patched, side)[n].enabled
      && IsReleased(dir, before, history, since, Of(patched, side)[n].id, from, until, current, after)
  }

  /** What has become of the entries: they are as they were, or patched, or updated. */
  predicate AreLeft(e: Entries, patched: Entries, now: Entries, ok: bool) {
    && (now == e || now == patched || now == Cleaned(patched))
    && (ok ==> now == Cleaned(patched))
  }

  /** What an update does, complete or not, with `kept` and `managed` what it made of other apps. */
  ghost predicate IsUpdated(dir: Directory, self: Self, rules: seq<Rule>, newId: string -> string, e: Entries, now: Entries,
                            before: seq<Question>, history: seq<Question>, since: int, from: seq<Entitled>, until: seq<Entitled>,
                            current: set<Assignment>, after: set<Assignment>, kept: set<string>, managed: set<Assignment>, ok: bool) {
    var patched := Patched(RequestedBy(rules), newId, e);
    && AreLeft(e, patched, now, ok)
    && AreProcessed(dir, self, rules, patched, before, history, since, from, until, current, after, kept, managed, ok)
    && (ok || (now != e && now != patched) ==>
          AreReleased(dir, before, history, since, patched, Cleaned(patched), from, until, current, after))
  }

  /** What is left to do once the first patch has been made: the dependents are processed, and then
      what has been disabled is deleted. */
  method ProcessAndRemove(reg: Registration, d: Remote, dir: Directory, cache: Cache, self: Self, rules: seq<Rule>,
                          ghost patched: Entries, ghost before: seq<Question>, ghost since: int)
    returns (r: Result<Outcome>, ghost kept: set<string>, ghost managed: set<Assignment>, ghost processed: bool)
    requires reg.Valid() && d.Valid() && cache.Valid()
    requires AreListed(reg.scopes, reg.roles, patched) && Keyed(patched) && HasDistinctIds(patched)
    requires AsksOnly(before, cache.history, dir.apps) && since <= cache.now
    modifies reg, d, cache
    ensures reg.Valid() && d.Valid() && cache.Valid()
    ensures AsksOnly(before, cache.history, dir.apps) && since <= cache.now
    ensures old(cache.failures) <= cache.failures && old(reg.failures) <= reg.failures && old(d.failures) <= d.failures
    ensures cache.failures == old(cache.failures) && reg.failures == old(reg.failures) && d.failures == old(d.failures) ==>
              SucceedsIfItCan(dir, before, self, rules, patched, old(d.current), r.Ok?)
    ensures r.Ok? ==> r.value == OutcomeOf(dir, self, rules, patched)
    ensures AreProcessed(dir, self, rules, patched, before, cache.history, since, old(reg.preAuthorized), reg.preAuthorized,
                         old(d.current), d.current, kept, managed, processed)
    ensures IsRemoved(patched, EntriesOf(reg.scopes, reg.roles), processed, r.Ok?)
    ensures r.Ok? ==> AreListed(reg.scopes, reg.roles, Cleaned(patched))
  {
    ListedEntries(reg.scopes, reg.roles, patched);
    r, kept, managed := ProcessPatched(reg, d, dir, cache, self, rules, patched, before, since);
    processed := r.Ok?;
    if r.Ok? {
      var ok := RemoveDisabledPermissions(reg, patched);
      if !ok {
        r := Err;
      }
    }
  }

  /** Only once the dependents have been processed is anything deleted. */
  predicate IsRemoved(patched: Entries, now: Entries, processed: bool, ok: bool) {
    && (now == patched || (processed && now == Cleaned(patched)))
    && (ok ==> processed && now == Cleaned(patched))
  }

  lemma RemovedIsUpdated(dir: Directory, self: Self, rules: seq<Rule>, newId: string -> string, e: Entries, now: Entries,
                         before: seq<Question>, history: seq<Question>, since: int, from: seq<Entitled>, until: seq<Entitled>,
                         current: set<Assignment>, after: set<Assignment>, kept: set<string>, managed: set<Assignment>,
                         processed: bool, ok: bool)
    requires Keyed(e) && HasDistinctIds(e) && AreNewIds(newId, e)
    requires AreProcessed(dir, self, rules, Patched(RequestedBy(rules), newId, e), before, history, since, from, until, current, after,
                          kept, managed, processed)
    requires IsRemoved(Patched(RequestedBy(rules), newId, e), now, processed, ok)
    ensures IsUpdated(dir, self, rules, newId, e, now, before, history, since, from, until, current, after, kept, managed, ok)
  {
    if processed {
      RemovalIsSafe(rules, dir, self, newId, e, before, history, since, from, until, kept, current, after, managed);
      StillProcessed(dir, self, rules, Patched(RequestedBy(rules), newId, e), before, history, since, from, until, current, after,
                     kept, managed);
    }
  }

  /** Wherever an update fails, it leaves the entries as they were, patched, or updated. Nothing is
      deleted before all that depends on it has been released. Where no call fails, the update
      succeeds exactly if every assignment that is to be made, and is there already, is of a tagged app. */
  method Update(reg: Registration, d: Remote, dir: Directory, cache: Cache, self: Self, rules: seq<Rule>, newId: string -> string)
    returns (r: Result<Outcome>, ghost kept: set<string>, ghost managed: set<Assignment>)
    requires reg.Valid() && d.Valid() && cache.Valid()
    requires HasDistinctIds(EntriesOf(reg.scopes, reg.roles)) && AreNewIds(newId, EntriesOf(reg.scopes, reg.roles))
    modifies reg, d, cache
    ensures reg.Valid() && d.Valid() && cache.Valid()
    ensures AsksOnly(old(cache.history), cache.history, dir.apps) && old(cache.now) <= cache.now
    ensures cache.failures == old(cache.failures) && reg.failures == old(reg.failures) && d.failures == old(d.failures) ==>
              SucceedsIfItCan(dir, old(cache.history), self, rules,
                              Patched(RequestedBy(rules), newId, EntriesOf(old(reg.scopes), old(reg.roles))), old(d.current), r.Ok?)
    ensures r.Ok? ==>
              r.value == OutcomeOf(dir, self, rules, Patched(RequestedBy(rules), newId, EntriesOf(old(reg.scopes), old(reg.roles))))
    ensures IsUpdated(dir, self, rules, newId, EntriesOf(old(reg.scopes), old(reg.roles)), EntriesOf(reg.scopes, reg.roles),
                      old(cache.history), cache.history, old(cache.now), old(reg.preAuthorized), reg.preAuthorized,
                      old(d.current), d.current, kept, managed, r.Ok?)
    ensures r.Ok? ==> FollowRules(reg.scopes, reg.roles, rules)
    ensures r.Ok? && IsUnambiguous(dir.apps) ==>
              RulesAreFollowed(rules, dir, self, reg.scopes, reg.roles, r.value.permissions, old(reg.preAuthorized), reg.preAuthorized, kept,
                               old(d.current), d.current, managed)
  {
    ghost var e, before, since := EntriesOf(reg.scopes, reg.roles), cache.history, cache.now;
    ghost var patched, from, current := Patched(RequestedBy(rules), newId, e), reg.preAuthorized, d.current;
    kept, managed := {}, {};
    var ok := PatchRegistration(reg, rules, newId, dir, self, cache);
    if !ok {
      NothingProcessed(dir, self, rules, patched, before, cache.history, since, from, current, kept, managed);
      return Err, kept, managed;
    }
    PatchedIsDistinct(RequestedBy(rules), newId, e);
    ghost var processed;
    r, kept, managed, processed := ProcessAndRemove(reg, d, dir, cache, self, rules, patched, before, since);
    RemovedIsUpdated(dir, self, rules, newId, e, EntriesOf(reg.scopes, reg.roles), before, cache.history, since, from, reg.preAuthorized,
                     current, d.current, kept, managed, processed, r.Ok?);
    if r.Ok? {
      UpdateFollowsRules(rules, dir, self, newId, e, reg.scopes, reg.roles, before, cache.history, since, from, reg.preAuthorized,
                         current, d.current, kept, managed);
    }
  }

  lemma StillProcessed(dir: Directory, self: Self, rules: seq<Rule>, patched: Entries, before: seq<Question>, history: seq<Question>,
                       since: int, from: seq<Entitled>, until: seq<Entitled>, current: set<Assignment>, after: set<Assignment>,
                       kept: set<string>, managed: set<Assignment>)
    requires AreProcessed(dir, self, rules, patched, before, history, since, from, until, current, after, kept, managed, true)
    ensures AreProcessed(dir, self, rules, patched, before, history, since, from, until, current, after, kept, managed, false)
  {
  }

  // ------------------------------------------------- what the rules have come to

  /** Every app that a rule names holds, of the scopes of the app, the default one and those of its rule. */
  ghost predicate ScopesAreHeld(rules: seq<Rule>, dir: Directory, self: Self, scopes: seq<Entry>, list: seq<Entitled>) {
    forall f: nat, a :: Decides(rules, dir, self, f, a) ==>
      exists p :: p in list && p.appId == a.clientId &&
                  forall e :: e in scopes ==> (e.id in p.permissionIds <==> HasScope(rules[f].grants, e.value))
  }

  /** And it is assigned, of the roles of the app, the default one and those of its rule, where roles and scopes
      agree on their IDs. */
  ghost predicate RolesAreHeld(rules: seq<Rule>, dir: Directory, self: Self, scopes: seq<Entry>, roles: seq<Entry>, current: set<Assignment>) {
    forall f: nat, a, e, s ::
      Decides(rules, dir, self, f, a) && e in roles && s in scopes && s.value == e.value && s.id == e.id && HasRole(rules[f].grants, e.value) ==>
        IsAssignedTo(current, e.id, dir.principalIds[a.clientId], self.servicePrincipalId)
  }

  ghost predicate RulesAreFollowed(rules: seq<Rule>, dir: Directory, self: Self, scopes: seq<Entry>, roles: seq<Entry>,
                                   permissions: PermissionMap, from: seq<Entitled>, until: seq<Entitled>, kept: set<string>,
                                   current: set<Assignment>, after: set<Assignment>, managed: set<Assignment>) {
    && FollowRules(scopes, roles, rules)
    && RulesAreListed(rules, dir, self, permissions, from, until, kept)
    && RulesAreAssigned(rules, dir, self, permissions, current, after, managed)
    && ScopesAreHeld(rules, dir, self, scopes, until)
    && RolesAreHeld(rules, dir, self, scopes, roles, after)
  }

  /** What is left of the patched entries is enabled, and known by the ID of its scope. */
  lemma LeftAreExtracted(scopes: seq<Entry>, roles: seq<Entry>, patched: Entries, e: Entry)
    requires Keyed(patched) && AreListed(scopes, roles, Cleaned(patched)) && e in scopes
    ensures var permissions := Extracted(patched.scopes, patched.roles);
            e.value in permissions && permissions[e.value].id == e.id && permissions[e.value].enabled
  {
  }

  lemma ScopeIsHeld(scopes: seq<Entry>, roles: seq<Entry>, patched: Entries, e: Entry, p: Entitled, clientId: string, grants: Option<Grants>)
    requires Keyed(patched) && HasDistinctIds(patched) && AreListed(scopes, roles, Cleaned(patched)) && e in scopes
    requires IsEntryFor(p, clientId, grants, Extracted(patched.scopes, patched.roles))
    ensures e.id in p.permissionIds <==> HasScope(grants, e.value)
  {
    LeftAreExtracted(scopes, roles, patched, e);
    ExtractedIdsAreDistinct(patched);
  }

  lemma ListedAreHeld(rules: seq<Rule>, dir: Directory, self: Self, scopes: seq<Entry>, roles: seq<Entry>, patched: Entries,
                      from: seq<Entitled>, until: seq<Entitled>, kept: set<string>)
    requires Keyed(patched) && HasDistinctIds(patched) && AreListed(scopes, roles, Cleaned(patched))
    requires RulesAreListed(rules, dir, self, Extracted(patched.scopes, patched.roles), from, until, kept)
    ensures ScopesAreHeld(rules, dir, self, scopes, until)
  {
    forall f: nat, a | Decides(rules, dir, self, f, a)
      ensures exists p :: p in until && p.appId == a.clientId &&
                          forall e :: e in scopes ==> (e.id in p.permissionIds <==> HasScope(rules[f].grants, e.value))
    {
      var p :| p in until && IsEntryFor(p, a.clientId, rules[f].grants, Extracted(patched.scopes, patched.roles));
      forall e | e in scopes
        ensures e.id in p.permissionIds <==> HasScope(rules[f].grants, e.value)
      {
        ScopeIsHeld(scopes, roles, patched, e, p, a.clientId, rules[f].grants);
      }
    }
  }

  lemma AssignedAreHeld(rules: seq<Rule>, dir: Directory, self: Self, scopes: seq<Entry>, roles: seq<Entry>, patched: Entries,
                        current: set<Assignment>, after: set<Assignment>, managed: set<Assignment>)
    requires Keyed(patched) && AreListed(scopes, roles, Cleaned(patched))
    requires RulesAreAssigned(rules, dir, self, Extracted(patched.scopes, patched.roles), current, after, managed)
    ensures RolesAreHeld(rules, dir, self, scopes, roles, after)
  {
    forall f: nat, a, e, s | Decides(rules, dir, self, f, a) && e in roles && s in scopes && s.value == e.value && s.id == e.id &&
                             HasRole(rules[f].grants, e.value)
      ensures IsAssignedTo(after, e.id, dir.principalIds[a.clientId], self.servicePrincipalId)
    {
      LeftAreExtracted(scopes, roles, patched, s);
    }
  }

  /** A complete update does what the rules say. */
  lemma UpdateFollowsRules(rules: seq<Rule>, dir: Directory, self: Self, newId: string -> string, e: Entries,
                           scopes: seq<Entry>, roles: seq<Entry>, before: seq<Question>, history: seq<Question>, since: int,
                           from: seq<Entitled>, until: seq<Entitled>, current: set<Assignment>, after: set<Assignment>,
                           kept: set<string>, managed: set<Assignment>)
    requires Keyed(e) && HasDistinctIds(e) && AreNewIds(newId, e)
    requires AreListed(scopes, roles, Updated(RequestedBy(rules), newId, e))
    requires AreProcessed(dir, self, rules, Patched(RequestedBy(rules), newId, e), before, history, since, from, until, current, after,
                          kept, managed, true)
    ensures FollowRules(scopes, roles, rules)
    ensures var patched := Patched(RequestedBy(rules), newId, e);
            IsUnambiguous(dir.apps) ==>
              RulesAreFollowed(rules, dir, self, scopes, roles, Extracted(patched.scopes, patched.roles), from, until, kept,
                               current, after, managed)
  {
    var patched := Patched(RequestedBy(rules), newId, e);
    var permissions := Extracted(patched.scopes, patched.roles);
    PatchedIsDistinct(RequestedBy(rules), newId, e);
    ExtractedIdsAreDistinct(patched);
    UpdatedFollowRules(scopes, roles, rules, newId, e);
    if IsUnambiguous(dir.apps) {
      RebuiltFollowsRules(rules, dir, self, permissions, from, kept);
      ReachedFollowsRules(rules, dir, self, permissions, current, after, managed);
      ListedAreHeld(rules, dir, self, scopes, roles, patched, from, until, kept);
      AssignedAreHeld(rules, dir, self, scopes, roles, patched, current, after, managed);
    }
  }

  // ----------------------------------------------------------- safe removal

  /** A valid app's scopes are among those that the spec asks for. */
  lemma ScopesAreRequested(r: Resource, rules: seq<Rule>, dir: Directory, self: Self, n: string)
    requires r in DesiredApps(rules, dir, self).valid && n in ScopeNames(r)
    ensures n in Names(RequestedBy(rules))
  {
    ValidAreNamed(rules, dir, self);
    if r.grants.Some? && n in r.grants.value.scopes {
      var rule :| rule in rules && Target(rule, dir, self) == Some(r);
      NamedExactly(rules);
      assert IsNamedBy(rules, n);
    }
  }

  /** What a name that is asked for ends up with is not the ID of something that is deleted. */
  lemma DeletedIdsDiffer(requested: set<string>, newId: string -> string, e: Entries, side: Side, n: string, m: string, id: string)
    requires Keyed(e) && HasDistinctIds(e) && AreNewIds(newId, e)
    requires n in Of(Patched(requested, newId, e), side) && n !in Of(Updated(requested, newId, e), side)
    requires m in Names(requested) && HasId(Patched(requested, newId, e), m, id)
    ensures id != Of(Patched(requested, newId, e), side)[n].id
  {
    PatchKeepsIdsDistinct(requested, newId, e);
    UpdateReachesSpec(requested, newId, e, side);
    assert HasId(Patched(requested, newId, e), n, Of(Patched(requested, newId, e), side)[n].id);
  }

  lemma ExtractedHasId(e: Entries, m: string)
    requires m in Extracted(e.scopes, e.roles)
    ensures HasId(e, m, Extracted(e.scopes, e.roles)[m].id)
  {
  }

  /** Only names that are asked for are enabled after the patch. */
  lemma EnabledIsRequested(requested: set<string>, newId: string -> string, e: Entries, m: string)
    requires Keyed(e)
    requires var p := Patched(requested, newId, e); m in Extracted(p.scopes, p.roles) && Extracted(p.scopes, p.roles)[m].enabled
    ensures m in Names(requested)
  {
  }

  /** No entry of the list of pre-authorized apps holds the ID, unless the entry was there before,
      of an app that exists and was seen not to be ours within the last fifteen minutes; and no
      service principal has an assignment to it, unless it had it before and was seen likewise.
      Where the cache agreed with the tags, these apps are indeed not tagged. */
  ghost predicate IsReleased(dir: Directory, before: seq<Question>, history: seq<Question>, since: int, id: string,
                             from: seq<Entitled>, until: seq<Entitled>, current: set<Assignment>, after: set<Assignment>) {
    && (forall p :: p in until && id in p.permissionIds ==>
          && p in from && IsDecided(dir, history, since, p.appId, true)
          && (AgreedBefore(dir, before) ==> IsDecidedByTags(dir, p.appId, true)))
    && (forall a :: a in after && a.roleId == id ==>
          && a in current
          && (a.kind.ServicePrincipal? ==>
                && IsJudged(dir, history, since, a, false)
                && (AgreedBefore(dir, before) ==> IsTruth(dir, a, false))))
  }

  lemma EntriesAreReleased(rules: seq<Rule>, dir: Directory, self: Self, newId: string -> string, e: Entries, side: Side, n: string,
                           before: seq<Question>, history: seq<Question>, since: int, from: seq<Entitled>, until: seq<Entitled>,
                           kept: set<string>, p: Entitled)
    requires Keyed(e) && HasDistinctIds(e) && AreNewIds(newId, e)
    requires n in Of(Patched(RequestedBy(rules), newId, e), side) && n !in Of(Updated(RequestedBy(rules), newId, e), side)
    requires var patched := Patched(RequestedBy(rules), newId, e);
             && IsPatched(dir, before, history, since, from, until, DesiredApps(rules, dir, self).valid,
                          Extracted(patched.scopes, patched.roles), kept)
             && p in until && Of(patched, side)[n].id in p.permissionIds
    ensures p in from && IsDecided(dir, history, since, p.appId, true)
    ensures AgreedBefore(dir, before) ==> IsDecidedByTags(dir, p.appId, true)
  {
    var patched := Patched(RequestedBy(rules), newId, e);
    var permissions, valid := Extracted(patched.scopes, patched.roles), DesiredApps(rules, dir, self).valid;
    RebuiltEntries(valid, permissions, from, kept, p);
    forall r | r in valid
      ensures p != EntitledTo(r, permissions)
    {
      DeletedIsNotHeld(r, rules, dir, self, newId, e, side, n);
    }
    assert p.appId in kept && p.appId !in ClientIds(valid);
  }

  lemma AssignmentsAreReleased(rules: seq<Rule>, dir: Directory, self: Self, newId: string -> string, e: Entries, side: Side, n: string,
                               before: seq<Question>, history: seq<Question>, since: int, current: set<Assignment>,
                               after: set<Assignment>, managed: set<Assignment>, a: Assignment)
    requires Keyed(e) && HasDistinctIds(e) && AreNewIds(newId, e)
    requires n in Of(Patched(RequestedBy(rules), newId, e), side) && n !in Of(Updated(RequestedBy(rules), newId, e), side)
    requires var patched := Patched(RequestedBy(rules), newId, e);
             && IsProcessed(dir, before, history, since, current, after,
                            RoleKeys(DesiredApps(rules, dir, self).valid, Extracted(patched.scopes, patched.roles), self), managed, true)
             && a in after && a.roleId == Of(patched, side)[n].id
    ensures a in current
    ensures a.kind.ServicePrincipal? ==>
              IsJudged(dir, history, since, a, false) && (AgreedBefore(dir, before) ==> IsTruth(dir, a, false))
  {
    var patched := Patched(RequestedBy(rules), newId, e);
    var desired := RoleKeys(DesiredApps(rules, dir, self).valid, Extracted(patched.scopes, patched.roles), self);
    DeletedIsNotDesired(rules, dir, self, newId, e, side, n, KeyOf(a));
    UndesiredIsNotOurs(dir, before, history, since, current, after, desired, managed, a);
  }

  /** What is left without being desired was there before, and is not of a managed app. */
  lemma UndesiredIsNotOurs(dir: Directory, before: seq<Question>, history: seq<Question>, since: int, current: set<Assignment>,
                           after: set<Assignment>, desired: set<Key>, managed: set<Assignment>, a: Assignment)
    requires IsProcessed(dir, before, history, since, current, after, desired, managed, true)
    requires a in after && KeyOf(a) !in desired
    ensures a in current
    ensures a.kind.ServicePrincipal? ==>
              IsJudged(dir, history, since, a, false) && (AgreedBefore(dir, before) ==> IsTruth(dir, a, false))
  {
    assert a in current && !InScope(a, ServicePrincipal, managed);
  }

  lemma DeletedIsNotDesired(rules: seq<Rule>, dir: Directory, self: Self, newId: string -> string, e: Entries, side: Side, n: string, k: Key)
    requires Keyed(e) && HasDistinctIds(e) && AreNewIds(newId, e)
    requires n in Of(Patched(RequestedBy(rules), newId, e), side) && n !in Of(Updated(RequestedBy(rules), newId, e), side)
    ensures var patched := Patched(RequestedBy(rules), newId, e);
            k in RoleKeys(DesiredApps(rules, dir, self).valid, Extracted(patched.scopes, patched.roles), self) ==>
              k.roleId != Of(patched, side)[n].id
  {
    var requested := RequestedBy(rules);
    var patched := Patched(requested, newId, e);
    var permissions := Extracted(patched.scopes, patched.roles);
    forall m | m in permissions && permissions[m].enabled
      ensures permissions[m].id != Of(patched, side)[n].id
    {
      EnabledIsRequested(requested, newId, e, m);
      ExtractedHasId(patched, m);
      DeletedIdsDiffer(requested, newId, e, side, n, m, permissions[m].id);
    }
  }

  /** By the time that a role or scope is deleted, it had been disabled, and what depends on it
      had been released. */
  lemma RemovalIsSafe(rules: seq<Rule>, dir: Directory, self: Self, newId: string -> string, e: Entries,
                      before: seq<Question>, history: seq<Question>, since: int, from: seq<Entitled>, until: seq<Entitled>,
                      kept: set<string>, current: set<Assignment>, after: set<Assignment>, managed: set<Assignment>)
    requires Keyed(e) && HasDistinctIds(e) && AreNewIds(newId, e)
    requires AreProcessed(dir, self, rules, Patched(RequestedBy(rules), newId, e), before, history, since, from, until, current, after,
                          kept, managed, true)
    ensures var patched := Patched(RequestedBy(rules), newId, e);
            AreReleased(dir, before, history, since, patched, Cleaned(patched), from, until, current, after)
  {
    var patched, updated := Patched(RequestedBy(rules), newId, e), Updated(RequestedBy(rules), newId, e);
    forall side: Side, n | n in Of(patched, side) && n !in Of(updated, side)
      ensures !Of(patched, side)[n].enabled
      ensures IsReleased(dir, before, history, since, Of(patched, side)[n].id, from, until, current, after)
    {
      DeletedWasDisabled(RequestedBy(rules), newId, e, side);
      var id := Of(patched, side)[n].id;
      forall p | p in until && id in p.permissionIds
        ensures p in from && IsDecided(dir, history, since, p.appId, true)
        ensures AgreedBefore(dir, before) ==> IsDecidedByTags(dir, p.appId, true)
      {
        EntriesAreReleased(rules, dir, self, newId, e, side, n, before, history, since, from, until, kept, p);
      }
      forall a | a in after && a.roleId == id
        ensures a in current
        ensures a.kind.ServicePrincipal? ==>
                  IsJudged(dir, history, since, a, false) && (AgreedBefore(dir, before) ==> IsTruth(dir, a, false))
      {
        AssignmentsAreReleased(rules, dir, self, newId, e, side, n, before, history, since, current, after, managed, a);
      }
    }
  }

  lemma DeletedIsNotHeld(r: Resource, rules: seq<Rule>, dir: Directory, self: Self, newId: string -> string, e: Entries, side: Side, n: string)
    requires Keyed(e) && HasDistinctIds(e) && AreNewIds(newId, e) && r in DesiredApps(rules, dir, self).valid
    requires n in Of(Patched(RequestedBy(rules), newId, e), side) && n !in Of(Updated(RequestedBy(rules), newId, e), side)
    ensures var patched := Patched(RequestedBy(rules), newId, e);
            Of(patched, side)[n].id !in ScopeIds(r, Extracted(patched.scopes, patched.roles))
  {
    var patched := Patched(RequestedBy(rules), newId, e);
    var permissions := Extracted(patched.scopes, patched.roles);
    forall m | m in ScopeNames(r) && m in permissions
      ensures permissions[m].id != Of(patched, side)[n].id
    {
      ScopesAreRequested(r, rules, dir, self, m);
      ExtractedHasId(patched, m);
      DeletedIdsDiffer(RequestedBy(rules), newId, e, side, n, m, permissions[m].id);
    }
  }

  /** An update leaves the default role for the readers of the list to find. */
  lemma HasDefaultRoleAfterPatch(requested: set<string>, newId: string -> string, e: Entries)
    requires Keyed(e)
    ensures var p := Patched(requested, newId, e);
            HasDefaultRole(Extracted(p.scopes, p.roles))
  {
  }
}
