/** The apps that may call an app: those that its spec names are looked up, and the list that
    the directory has of them is rebuilt, around the entries that are not ours. */
module PreAuthorized {

  import opened Applications
  import opened Assignments
  import opened Permissions
  import opened Wrappers
  import Strings

  datatype Rule = Rule(application: string, namespace: string, cluster: string, grants: Option<Grants>)

  /** The app whose list it is. */
  datatype Self = Self(name: string, namespace: string, cluster: string, clientId: string, servicePrincipalId: string)

  /** An entry of the list: an app, and the scopes that it may use. */
  datatype Entitled = Entitled(appId: string, permissionIds: set<string>)

  /** The apps that the spec names: those that there are, and those that there are not. */
  datatype Apps = Apps(valid: seq<Resource>, invalid: seq<Resource>)

  /** The app is in the directory. */
  predicate HasApp(dir: Directory, self: Self) {
    exists a :: a in dir.apps && a.name == self.name && a.clientId == self.clientId
  }

  // ---------------------------------------------------------- desired apps

  function UniqueName(rule: Rule): string {
    Strings.QualifiedName(rule.cluster, rule.namespace, rule.application)
  }

  function WithDefaults(rule: Rule, self: Self): Rule {
    var cluster := if rule.cluster == "" then self.cluster else rule.cluster;
    var namespace := if rule.namespace == "" then self.namespace else rule.namespace;
    rule.(cluster := cluster, namespace := namespace)
  }

  function InvalidResource(rule: Rule): Resource {
    Resource(UniqueName(rule), "", "", ServicePrincipal, rule.grants)
  }

  function OwnResource(self: Self): Resource {
    Resource(self.name, self.clientId, self.servicePrincipalId, ServicePrincipal, None)
  }

  /** The app that a rule names, if it has a service principal as well. */
  function Resolved(rule: Rule, dir: Directory): Option<Resource> {
    var found := Lookup(dir.apps, ByName(UniqueName(rule)));
    if found.Ok? && found.value.Some? && found.value.value.clientId in dir.principalIds then
      var app := found.value.value;
      Some(Resource(app.name, app.clientId, dir.principalIds[app.clientId], ServicePrincipal, rule.grants))
    else
      None
  }

  predicate HasName(resources: seq<Resource>, name: string) {
    exists r :: r in resources && r.name == name
  }

  function WithRule(apps: Apps, rule: Rule, dir: Directory): Apps {
    match Resolved(rule, dir)
    case None => apps.(invalid := apps.invalid + [InvalidResource(rule)])
    case Some(r) => if HasName(apps.valid, r.name) then apps else apps.(valid := apps.valid + [r])
  }

  function Sorted(rules: seq<Rule>, dir: Directory, self: Self): Apps {
    if rules == [] then
      Apps([], [])
    else
      WithRule(Sorted(rules[..|rules| - 1], dir, self), WithDefaults(rules[|rules| - 1], self), dir)
  }

  /** The app itself is one that may call it. */
  function WithSelf(apps: Apps, self: Self): Apps {
    if HasName(apps.valid, self.name) then apps else apps.(valid := apps.valid + [OwnResource(self)])
  }

  function DesiredApps(rules: seq<Rule>, dir: Directory, self: Self): Apps {
    WithSelf(Sorted(rules, dir, self), self)
  }

  predicate HasDistinctNames(resources: seq<Resource>) {
    forall i, j :: 0 <= i < j < |resources| ==> resources[i].name != resources[j].name
  }

  function Target(rule: Rule, dir: Directory, self: Self): Option<Resource> {
    Resolved(WithDefaults(rule, self), dir)
  }

  predicate IsNamed(r: Resource, rules: seq<Rule>, dir: Directory, self: Self) {
    exists rule :: rule in rules && Target(rule, dir, self) == Some(r)
  }

  predicate IsMissing(r: Resource, rules: seq<Rule>, dir: Directory, self: Self) {
    exists rule :: rule in rules && Target(rule, dir, self).None? && r == InvalidResource(WithDefaults(rule, self))
  }

  /** Every valid app is named by a rule, and no two have the same name. */
  lemma {:induction false} ValidAreNamed(rules: seq<Rule>, dir: Directory, self: Self)
    ensures HasDistinctNames(Sorted(rules, dir, self).valid)
    ensures forall r :: r in Sorted(rules, dir, self).valid ==> IsNamed(r, rules, dir, self)
  {
    if rules != [] {
      var init, last := rules[..|rules| - 1], rules[|rules| - 1];
      ValidAreNamed(init, dir, self);
      assert rules == init + [last];
      forall r | r in Sorted(rules, dir, self).valid
        ensures IsNamed(r, rules, dir, self)
      {
        if r in Sorted(init, dir, self).valid {
          var rule :| rule in init && Target(rule, dir, self) == Some(r);
          assert rule in rules;
        } else {
          assert Target(last, dir, self) == Some(r);
        }
      }
    }
  }

  /** Every rule that names an app has one of that name among the valid ones. */
  lemma {:induction false} NamedAreValid(rules: seq<Rule>, dir: Directory, self: Self, rule: Rule)
    requires rule in rules && Target(rule, dir, self).Some?
    ensures HasName(Sorted(rules, dir, self).valid, UniqueName(WithDefaults(rule, self)))
  {
    var init, last := rules[..|rules| - 1], rules[|rules| - 1];
    assert rules == init + [last];
    var before, after := Sorted(init, dir, self).valid, Sorted(rules, dir, self).valid;
    assert forall r :: r in before ==> r in after;
    if rule in init {
      NamedAreValid(init, dir, self, rule);
      var r :| r in before && r.name == UniqueName(WithDefaults(rule, self));
      assert r in after;
    } else {
      var r := Target(rule, dir, self).value;
      assert HasName(before, r.name) || r in after;
    }
  }

  /** The invalid ones are exactly those that rules name and that there are not. */
  lemma {:induction false} InvalidAreMissing(rules: seq<Rule>, dir: Directory, self: Self)
    ensures forall r :: r in Sorted(rules, dir, self).invalid <==> IsMissing(r, rules, dir, self)
  {
    if rules != [] {
      var init, last := rules[..|rules| - 1], rules[|rules| - 1];
      InvalidAreMissing(init, dir, self);
      assert rules == init + [last];
      forall r
        ensures IsMissing(r, rules, dir, self) <==>
                IsMissing(r, init, dir, self) || (Target(last, dir, self).None? && r == InvalidResource(WithDefaults(last, self)))
      {
        assert last in rules && forall rule :: rule in init ==> rule in rules;
      }
    }
  }

  method MapToResource(rule: Rule, dir: Directory, cache: Cache) returns (r: Result<Option<Resource>>)
    requires cache.Valid()
    modifies cache
    ensures cache.Valid() && AsksOnly(old(cache.history), cache.history, dir.apps) && old(cache.now) <= cache.now
    ensures r.Ok? ==> r.value == Resolved(rule, dir)
    ensures old(cache.failures) <= cache.failures
    ensures r.Err? && IsUnambiguous(dir.apps) ==> old(cache.failures) < cache.failures
  {
    if IsUnambiguous(dir.apps) {
      NeverAmbiguous(dir.apps, ByName(UniqueName(rule)));
    }
    var found :- ExistsByFilter(dir.apps, ByName(UniqueName(rule)), cache);
    if found.None? {
      return Ok(None);
    }
    var app := found.value;
    var called := cache.Call();
    if !called {
      return Err;
    }
    if app.clientId !in dir.principalIds {
      return Ok(None);
    }
    return Ok(Some(Resource(app.name, app.clientId, dir.principalIds[app.clientId], ServicePrincipal, rule.grants)));
  }

  method MapDesired(rules: seq<Rule>, dir: Directory, self: Self, cache: Cache) returns (r: Result<Apps>)
    requires cache.Valid()
    modifies cache
    ensures cache.Valid() && AsksOnly(old(cache.history), cache.history, dir.apps) && old(cache.now) <= cache.now
    ensures r.Ok? ==> r.value == DesiredApps(rules, dir, self)
    ensures old(cache.failures) <= cache.failures
    ensures r.Err? && IsUnambiguous(dir.apps) ==> old(cache.failures) < cache.failures
  {
    var seen: set<string> := {};
    var valid, invalid := [], [];
    for i := 0 to |rules|
      invariant cache.Valid() && AsksOnly(old(cache.history), cache.history, dir.apps) && old(cache.now) <= cache.now
      invariant old(cache.failures) <= cache.failures
      invariant Apps(valid, invalid) == Sorted(rules[..i], dir, self)
      invariant forall n :: n in seen <==> HasName(valid, n)
    {
      assert rules[..i + 1][..i] == rules[..i];
      var rule := WithDefaults(rules[i], self);
      var found :- MapToResource(rule, dir, cache);
      if found.None? {
        invalid := invalid + [InvalidResource(rule)];
      } else if found.value.name !in seen {
        seen := seen + {found.value.name};
        valid := valid + [found.value];
      }
    }
    assert rules[..|rules|] == rules;
    if self.name !in seen {
      valid := valid + [OwnResource(self)];
    }
    return Ok(Apps(valid, invalid));
  }

  // -------------------------------------------------------- rebuilt list

  /** The names of the scopes that an app may use. */
  function ScopeNames(r: Resource): seq<string> {
    [DEFAULT_SCOPE_NAME] + if r.grants.Some? then r.grants.value.scopes else []
  }

  function ScopeIds(r: Resource, permissions: PermissionMap): set<string> {
    set n | n in ScopeNames(r) && n in permissions :: permissions[n].id
  }

  function EntitledTo(r: Resource, permissions: PermissionMap): Entitled {
    Entitled(r.clientId, ScopeIds(r, permissions))
  }

  /** The entry of an app: it holds the default scope and those of its rule, as far as there are such permissions. */
  ghost predicate IsEntryFor(e: Entitled, clientId: string, grants: Option<Grants>, permissions: PermissionMap) {
    && e.appId == clientId
    && forall id :: id in e.permissionIds <==>
                    exists n :: n in permissions && permissions[n].id == id &&
                                (n == "defaultaccess" || (grants.Some? && n in grants.value.scopes))
  }

  lemma EntitledExactly(r: Resource, permissions: PermissionMap)
    ensures IsEntryFor(EntitledTo(r, permissions), r.clientId, r.grants, permissions)
  {
    var scopes := if r.grants.Some? then r.grants.value.scopes else [];
    assert forall n :: n in ScopeNames(r) <==> n == "defaultaccess" || n in scopes;
  }

  /** Every valid app has its entry. */
  ghost predicate HaveEntries(valid: seq<Resource>, permissions: PermissionMap, list: seq<Entitled>) {
    forall r :: r in valid ==> exists e :: e in list && IsEntryFor(e, r.clientId, r.grants, permissions)
  }

  lemma RebuiltHasEntries(valid: seq<Resource>, permissions: PermissionMap, existing: seq<Entitled>, kept: set<string>)
    ensures HaveEntries(valid, permissions, Rebuilt(valid, permissions, existing, kept))
  {
    forall r | r in valid
      ensures exists e :: e in Rebuilt(valid, permissions, existing, kept) && IsEntryFor(e, r.clientId, r.grants, permissions)
    {
      EntitledExactly(r, permissions);
      RebuiltEntries(valid, permissions, existing, kept, EntitledTo(r, permissions));
    }
  }

  function AllEntitled(valid: seq<Resource>, permissions: PermissionMap): seq<Entitled> {
    seq(|valid|, i requires 0 <= i < |valid| => EntitledTo(valid[i], permissions))
  }

  function ClientIds(valid: seq<Resource>): set<string> {
    set r | r in valid :: r.clientId
  }

  /** The entries for the given apps, in their order. */
  function Kept(existing: seq<Entitled>, kept: set<string>): (r: seq<Entitled>)
    ensures forall p :: p in r <==> p in existing && p.appId in kept
  {
    if existing == [] then
      []
    else
      var init := Kept(existing[..|existing| - 1], kept);
      if existing[|existing| - 1].appId in kept then init + [existing[|existing| - 1]] else init
  }

  function Rebuilt(valid: seq<Resource>, permissions: PermissionMap, existing: seq<Entitled>, kept: set<string>): seq<Entitled> {
    AllEntitled(valid, permissions) + Kept(existing, kept)
  }

  predicate HasDistinctAppIds(list: seq<Entitled>) {
    forall i, j :: 0 <= i < j < |list| ==> list[i].appId != list[j].appId
  }

  predicate HasDistinctClientIds(valid: seq<Resource>) {
    forall i, j :: 0 <= i < j < |valid| ==> valid[i].clientId != valid[j].clientId
  }

  lemma {:induction false} KeptAreDistinct(existing: seq<Entitled>, kept: set<string>)
    requires HasDistinctAppIds(existing)
    ensures HasDistinctAppIds(Kept(existing, kept))
  {
    if existing != [] {
      var init := existing[..|existing| - 1];
      KeptAreDistinct(init, kept);
      forall p | p in Kept(init, kept)
        ensures p.appId != existing[|existing| - 1].appId
      {
        var i :| 0 <= i < |init| && init[i] == p;
      }
    }
  }

  /** Every valid app is in the list, with its scopes; and of the entries that there were,
      exactly those that are to be kept. */
  lemma RebuiltEntries(valid: seq<Resource>, permissions: PermissionMap, existing: seq<Entitled>, kept: set<string>, p: Entitled)
    ensures p in Rebuilt(valid, permissions, existing, kept) <==>
            (exists r :: r in valid && p == EntitledTo(r, permissions)) || (p in existing && p.appId in kept)
  {
    var first := AllEntitled(valid, permissions);
    if r :| r in valid && p == EntitledTo(r, permissions) {
      var i :| 0 <= i < |valid| && valid[i] == r;
      assert first[i] == p;
    }
  }

  /** No app is in the list twice. */
  lemma RebuiltIsDistinct(valid: seq<Resource>, permissions: PermissionMap, existing: seq<Entitled>, kept: set<string>)
    requires HasDistinctClientIds(valid) && HasDistinctAppIds(existing) && kept !! ClientIds(valid)
    ensures HasDistinctAppIds(Rebuilt(valid, permissions, existing, kept))
  {
    KeptAreDistinct(existing, kept);
    var first, rest := AllEntitled(valid, permissions), Kept(existing, kept);
    forall i, j | 0 <= i < |first| && 0 <= j < |rest|
      ensures first[i].appId != rest[j].appId
    {
      assert rest[j] in rest && valid[i] in valid;
    }
  }

  /** The apps whose entries are to be kept: those that there are and that have no tag of ours. */
  function Unmanaged(dir: Directory, existing: seq<Entitled>, valid: seq<Resource>): set<string> {
    set p | p in existing && p.appId !in ClientIds(valid) && (exists a :: a in dir.apps && a.clientId == p.appId && !IsTagged(a.tags)) :: p.appId
  }

  /** Why an entry that is not a valid app's is kept, or dropped. */
  predicate IsDecided(dir: Directory, history: seq<Question>, since: int, id: string, kept: bool) {
    if kept then
      (exists a :: a in dir.apps && a.clientId == id) && WasSeen(history, since, id, false)
    else
      (forall a :: a in dir.apps ==> a.clientId != id) || WasSeen(history, since, id, true)
  }

  /** As it would be without the cache. */
  predicate IsDecidedByTags(dir: Directory, id: string, kept: bool) {
    kept <==> exists a :: a in dir.apps && a.clientId == id && !IsTagged(a.tags)
  }

  lemma DecidedBefore(dir: Directory, before: seq<Question>, after: seq<Question>, later: int, since: int, id: string, kept: bool)
    requires IsDecided(dir, before, later, id, kept) && before <= after && since <= later
    ensures IsDecided(dir, after, since, id, kept)
  {
  }

  /** An app that was looked up, and then asked about. */
  lemma LookedUpIsDecided(dir: Directory, before: seq<Question>, history: seq<Question>, a: App, now: int)
    requires Lookup(dir.apps, ByClientId(a.clientId)) == Ok(Some(a)) && AsksOnly(before, history, dir.apps)
    ensures var q := Question(a.clientId, a.tags, now);
            var kept := !Answer(Cached(history), q);
            && IsDecided(dir, history + [q], now, a.clientId, kept)
            && (HasUniqueClientIds(dir.apps) && Agrees(Cached(before), dir.apps) ==> IsDecidedByTags(dir, a.clientId, kept))
  {
    var q := Question(a.clientId, a.tags, now);
    AnswerWasSeen(history, q);
    if HasUniqueClientIds(dir.apps) && Agrees(Cached(before), dir.apps) {
      AgreementIsKept(before, history, dir.apps);
      OneAnswerAgrees(Cached(history), q, dir.apps, a);
      forall b | b in dir.apps && b.clientId == a.clientId
        ensures b == a
      {
        SameApp(dir.apps, a, b);
      }
    }
  }

  method FindByClientId(id: string, dir: Directory, cache: Cache) returns (r: Result<Option<App>>)
    requires cache.Valid()
    modifies cache
    ensures cache.Valid() && AsksOnly(old(cache.history), cache.history, dir.apps) && old(cache.now) <= cache.now
    ensures r.Ok? ==> r == Lookup(dir.apps, ByClientId(id))
    ensures old(cache.failures) <= cache.failures
    ensures r.Err? && IsUnambiguous(dir.apps) ==> old(cache.failures) < cache.failures
  {
    if IsUnambiguous(dir.apps) {
      NeverAmbiguous(dir.apps, ByClientId(id));
    }
    r := ExistsByFilter(dir.apps, ByClientId(id), cache);
  }

  /** Whether to keep the entry of an app that is not one of the valid ones. */
  method IsKept(id: string, dir: Directory, cache: Cache) returns (r: Result<bool>)
    requires cache.Valid()
    modifies cache
    ensures cache.Valid() && AsksOnly(old(cache.history), cache.history, dir.apps) && old(cache.now) <= cache.now
    ensures r.Ok? ==> IsDecided(dir, cache.history, old(cache.now), id, r.value)
    ensures r.Ok? && HasUniqueClientIds(dir.apps) && Agrees(old(cache.items), dir.apps) ==> IsDecidedByTags(dir, id, r.value)
    ensures old(cache.failures) <= cache.failures
    ensures r.Err? && IsUnambiguous(dir.apps) ==> old(cache.failures) < cache.failures
  {
    ghost var before, since := cache.history, cache.now;
    var isManaged := cache.Get(id);
    if isManaged == Some(true) {
      FreshWasSeen(cache.history, id, cache.now);
      return Ok(false);
    }
    var found :- FindByClientId(id, dir, cache);
    if found.None? {
      return Ok(false);
    }
    ghost var history := cache.history;
    var managed := cache.IsManaged(found.value);
    LookedUpIsDecided(dir, before, history, found.value, cache.now);
    DecidedBefore(dir, cache.history, cache.history, cache.now, since, id, !managed);
    return Ok(!managed);
  }

  lemma FilteredIds(r: Resource, permissions: PermissionMap, filtered: PermissionMap, ids: set<string>)
    requires filtered == map n | n in ScopeNames(r) && n in permissions :: permissions[n]
    requires ids == set n | n in filtered :: filtered[n].id
    ensures ids == ScopeIds(r, permissions)
  {
    forall id | id in ScopeIds(r, permissions)
      ensures id in ids
    {
      var n :| n in ScopeNames(r) && n in permissions && permissions[n].id == id;
      assert n in filtered;
    }
  }

  /** The scopes of an app, by name, and then their IDs. */
  method ToEntitled(r: Resource, permissions: PermissionMap) returns (e: Entitled)
    ensures e == EntitledTo(r, permissions) && IsEntryFor(e, r.clientId, r.grants, permissions)
  {
    var names := ScopeNames(r);
    var filtered: PermissionMap := map[];
    for i := 0 to |names|
      invariant filtered == map n | n in names[..i] && n in permissions :: permissions[n]
    {
      assert names[..i + 1] == names[..i] + [names[i]];
      if names[i] in permissions && names[i] !in filtered {
        filtered := filtered[names[i] := permissions[names[i]]];
      }
    }
    assert names[..|names|] == names;
    var ids, rest := {}, filtered.Keys;
    while rest != {}
      invariant rest <= filtered.Keys
      invariant ids == set n | n in filtered && n !in rest :: filtered[n].id
      decreases rest
    {
      var n :| n in rest;
      ids := ids + {filtered[n].id};
      rest := rest - {n};
    }
    FilteredIds(r, permissions, filtered, ids);
    EntitledExactly(r, permissions);
    return Entitled(r.clientId, ids);
  }

  predicate AreDecided(dir: Directory, history: seq<Question>, since: int, list: seq<Entitled>, added: set<string>, kept: set<string>) {
    && kept !! added
    && forall p :: p in list && p.appId !in added ==> IsDecided(dir, history, since, p.appId, p.appId in kept)
  }

  predicate AreDecidedByTags(dir: Directory, list: seq<Entitled>, added: set<string>, kept: set<string>) {
    forall p :: p in list && p.appId !in added ==> IsDecidedByTags(dir, p.appId, p.appId in kept)
  }

  lemma AllDecidedBefore(dir: Directory, before: seq<Question>, after: seq<Question>, since: int, list: seq<Entitled>,
                         added: set<string>, kept: set<string>)
    requires AreDecided(dir, before, since, list, added, kept) && before <= after
    ensures AreDecided(dir, after, since, list, added, kept)
  {
  }

  lemma {:induction false} KeptWithout(list: seq<Entitled>, kept: set<string>, id: string)
    requires forall p :: p in list ==> p.appId != id
    ensures Kept(list, kept + {id}) == Kept(list, kept)
  {
    if list != [] {
      KeptWithout(list[..|list| - 1], kept, id);
      assert list[|list| - 1] in list;
    }
  }

  /** One more entry is decided. */
  lemma OneMoreDecided(dir: Directory, history: seq<Question>, since: int, list: seq<Entitled>, p: Entitled,
                       added: set<string>, kept: set<string>, isKept: bool)
    requires AreDecided(dir, history, since, list, added, kept) && p.appId !in added && IsDecided(dir, history, since, p.appId, isKept)
    requires p.appId !in kept && forall o :: o in list ==> o.appId != p.appId
    ensures var now := if isKept then kept + {p.appId} else kept;
            && AreDecided(dir, history, since, list + [p], added, now)
            && Kept(list + [p], now) == Kept(list, kept) + (if isKept then [p] else [])
            && (AreDecidedByTags(dir, list, added, kept) && IsDecidedByTags(dir, p.appId, isKept) ==>
                  AreDecidedByTags(dir, list + [p], added, now))
  {
    assert (list + [p])[..|list|] == list;
    KeptWithout(list, kept, p.appId);
    var now := if isKept then kept + {p.appId} else kept;
    forall o | o in list + [p] && o.appId !in added
      ensures IsDecided(dir, history, since, o.appId, o.appId in now)
    {
      if o in list {
        assert o.appId in now <==> o.appId in kept;
      }
    }
  }

  /** Where the loop over the existing entries stands. */
  ghost predicate HasKept(dir: Directory, before: seq<Question>, history: seq<Question>, since: int,
                          list: seq<Entitled>, added: set<string>, kept: set<string>, apps: seq<Entitled>) {
    && apps == Kept(list, kept)
    && (forall id :: id in kept ==> exists p :: p in list && p.appId == id)
    && AreDecided(dir, history, since, list, added, kept)
    && (AgreedBefore(dir, before) ==> AreDecidedByTags(dir, list, added, kept))
  }

  lemma SkippedOne(dir: Directory, before: seq<Question>, history: seq<Question>, since: int, list: seq<Entitled>, p: Entitled,
                   added: set<string>, kept: set<string>, apps: seq<Entitled>)
    requires HasKept(dir, before, history, since, list, added, kept, apps) && p.appId in added
    ensures HasKept(dir, before, history, since, list + [p], added, kept, apps)
  {
  }

  lemma DecidedOne(dir: Directory, before: seq<Question>, history: seq<Question>, after: seq<Question>, since: int, now: int,
                   list: seq<Entitled>, p: Entitled, added: set<string>, kept: set<string>, apps: seq<Entitled>, isKept: bool)
    requires HasKept(dir, before, history, since, list, added, kept, apps) && p.appId !in added
    requires history <= after && since <= now && IsDecided(dir, after, now, p.appId, isKept)
    requires AgreedBefore(dir, before) ==> IsDecidedByTags(dir, p.appId, isKept)
    requires forall o :: o in list ==> o.appId != p.appId
    ensures HasKept(dir, before, after, since, list + [p], added, if isKept then kept + {p.appId} else kept,
                    if isKept then apps + [p] else apps)
  {
    DecidedBefore(dir, after, after, now, since, p.appId, isKept);
    AllDecidedBefore(dir, history, after, since, list, added, kept);
    OneMoreDecided(dir, after, since, list, p, added, kept, isKept);
    var kept' := if isKept then kept + {p.appId} else kept;
    forall id | id in kept'
      ensures exists o :: o in list + [p] && o.appId == id
    {
      if id in kept {
        var o :| o in list && o.appId == id;
        assert o in list + [p];
      } else {
        assert p in list + [p];
      }
    }
  }

  /** The existing entries that are kept. */
  method KeepUnmanaged(existing: seq<Entitled>, added: set<string>, dir: Directory, cache: Cache)
    returns (r: Result<seq<Entitled>>, ghost kept: set<string>)
    requires cache.Valid() && HasDistinctAppIds(existing)
    modifies cache
    ensures cache.Valid() && AsksOnly(old(cache.history), cache.history, dir.apps) && old(cache.now) <= cache.now
    ensures r.Ok? ==> r.value == Kept(existing, kept) && AreDecided(dir, cache.history, old(cache.now), existing, added, kept)
    ensures r.Ok? && AgreedBefore(dir, old(cache.history)) ==> AreDecidedByTags(dir, existing, added, kept)
    ensures old(cache.failures) <= cache.failures
    ensures r.Err? && IsUnambiguous(dir.apps) ==> old(cache.failures) < cache.failures
  {
    ghost var before, since := cache.history, cache.now;
    var apps := [];
    kept := {};
    for i := 0 to |existing|
      invariant cache.Valid() && AsksOnly(before, cache.history, dir.apps) && since <= cache.now
      invariant HasKept(dir, before, cache.history, since, existing[..i], added, kept, apps)
      invariant old(cache.failures) <= cache.failures
    {
      assert existing[..i + 1] == existing[..i] + [existing[i]];
      var p := existing[i];
      if p.appId in added {
        SkippedOne(dir, before, cache.history, since, existing[..i], p, added, kept, apps);
      } else {
        ghost var history, now := cache.history, cache.now;
        if AgreedBefore(dir, before) {
          AgreementIsKept(before, history, dir.apps);
        }
        var keeps := IsKept(p.appId, dir, cache);
        if keeps.Err? {
          return Err, kept;
        }
        DecidedOne(dir, before, history, cache.history, since, now, existing[..i], p, added, kept, apps, keeps.value);
        if keeps.value {
          apps := apps + [p];
          kept := kept + {p.appId};
        }
      }
    }
    assert existing[..|existing|] == existing;
    r := Ok(apps);
  }

  // ------------------------------------------------------------ processing

  /** The app as the directory has it. */
  class Registration {
    var scopes: seq<Entry>
    var roles: seq<Entry>
    var preAuthorized: seq<Entitled>
    ghost var failures: nat          // calls that failed, but for those that were refused

    ghost predicate Valid()
      reads this
    {
      HasDistinctAppIds(preAuthorized)
    }

    constructor (scopes: seq<Entry>, roles: seq<Entry>)
      ensures Valid() && this.scopes == scopes && this.roles == roles && preAuthorized == []
    {
      this.scopes, this.roles, preAuthorized := scopes, roles, [];
    }

    /** A patch may be applied and yet be reported as failed. No app may be listed twice. */
    method PatchPreAuthorized(apps: seq<Entitled>) returns (ok: bool)
      requires Valid()
      modifies this`preAuthorized, this`failures
      ensures Valid() && (preAuthorized == old(preAuthorized) || preAuthorized == apps)
      ensures ok ==> preAuthorized == apps
      ensures failures == if ok || !HasDistinctAppIds(apps) then old(failures) else old(failures) + 1
    {
      if !HasDistinctAppIds(apps) {
        return false;
      }
      var applied: bool, reported: bool := *, *;
      if applied {
        preAuthorized := apps;
      }
      ok := applied && reported;
      Count(ok);
    }

    /** Both lists are replaced at once. */
    method PatchPermissions(newScopes: seq<Entry>, newRoles: seq<Entry>) returns (ok: bool)
      modifies this`scopes, this`roles, this`failures
      ensures failures == if ok then old(failures) else old(failures) + 1
      ensures (scopes == old(scopes) && roles == old(roles)) || (scopes == newScopes && roles == newRoles)
      ensures ok ==> scopes == newScopes && roles == newRoles
    {
      var applied: bool, reported: bool := *, *;
      if applied {
        scopes, roles := newScopes, newRoles;
      }
      ok := applied && reported;
      Count(ok);
    }

    /** Any other step of an update, which has no effect here. */
    method OtherStep() returns (ok: bool)
      modifies this`failures
      ensures failures == if ok then old(failures) else old(failures) + 1
    {
      ok := *;
      Count(ok);
    }

    ghost method Count(ok: bool)
      modifies this`failures
      ensures failures == if ok then old(failures) else old(failures) + 1
    {
      if !ok {
        failures := failures + 1;
      }
    }
  }

  method EntitleAll(valid: seq<Resource>, permissions: PermissionMap) returns (apps: seq<Entitled>, added: set<string>)
    ensures apps == AllEntitled(valid, permissions) && added == ClientIds(valid)
  {
    added := {};
    apps := [];
    for i := 0 to |valid|
      invariant apps == AllEntitled(valid[..i], permissions)
      invariant added == ClientIds(valid[..i])
    {
      assert valid[..i + 1] == valid[..i] + [valid[i]];
      var e := ToEntitled(valid[i], permissions);
      apps := apps + [e];
      added := added + {valid[i].clientId};
    }
    assert valid[..|valid|] == valid;
  }

  /** The app itself is looked up by its name. */
  method GetSelf(dir: Directory, self: Self, cache: Cache) returns (r: Result<App>)
    requires cache.Valid()
    modifies cache
    ensures cache.Valid() && AsksOnly(old(cache.history), cache.history, dir.apps) && old(cache.now) <= cache.now
    ensures old(cache.failures) <= cache.failures
    ensures r.Err? && IsUnambiguous(dir.apps) && HasApp(dir, self) ==> old(cache.failures) < cache.failures
  {
    if IsUnambiguous(dir.apps) {
      NeverAmbiguous(dir.apps, ByName(self.name));
    }
    r := GetSingle(dir.apps, ByName(self.name), cache);
  }

  method Patch(reg: Registration, valid: seq<Resource>, permissions: PermissionMap, dir: Directory, self: Self, cache: Cache)
    returns (ok: bool, ghost kept: set<string>)
    requires cache.Valid() && reg.Valid()
    modifies cache, reg`preAuthorized, reg`failures
    ensures cache.Valid() && AsksOnly(old(cache.history), cache.history, dir.apps) && old(cache.now) <= cache.now
    ensures reg.Valid()
    ensures var rebuilt := Rebuilt(valid, permissions, old(reg.preAuthorized), kept);
            && (reg.preAuthorized == old(reg.preAuthorized) || reg.preAuthorized == rebuilt)
            && (ok ==> reg.preAuthorized == rebuilt)
    ensures reg.preAuthorized != old(reg.preAuthorized) || ok ==>
              && AreDecided(dir, cache.history, old(cache.now), old(reg.preAuthorized), ClientIds(valid), kept)
              && (AgreedBefore(dir, old(cache.history)) ==>
                    AreDecidedByTags(dir, old(reg.preAuthorized), ClientIds(valid), kept))
    ensures old(cache.failures) <= cache.failures && old(reg.failures) <= reg.failures
    ensures !ok && IsUnambiguous(dir.apps) && HasApp(dir, self) && HasDistinctClientIds(valid) ==>
              old(cache.failures) < cache.failures || old(reg.failures) < reg.failures
  {
    ghost var before, since := cache.history, cache.now;
    kept := {};
    var apps, added := EntitleAll(valid, permissions);
    var found := GetSelf(dir, self, cache);
    if found.Err? {
      return false, kept;
    }
    ghost var history, now := cache.history, cache.now;
    if AgreedBefore(dir, before) {
      AgreementIsKept(before, history, dir.apps);
    }
    var rest;
    rest, kept := KeepUnmanaged(reg.preAuthorized, added, dir, cache);
    if rest.Err? {
      return false, kept;
    }
    DecidedSince(dir, cache.history, now, since, reg.preAuthorized, added, kept);
    if HasDistinctClientIds(valid) {
      RebuiltIsDistinct(valid, permissions, reg.preAuthorized, kept);
    }
    ok := reg.PatchPreAuthorized(apps + rest.value);
  }

  lemma DecidedSince(dir: Directory, history: seq<Question>, later: int, since: int, list: seq<Entitled>,
                     added: set<string>, kept: set<string>)
    requires AreDecided(dir, history, later, list, added, kept) && since <= later
    ensures AreDecided(dir, history, since, list, added, kept)
  {
  }

  /** The list is untouched, or rebuilt around the entries that are to be kept. */
  ghost predicate IsPatched(dir: Directory, before: seq<Question>, history: seq<Question>, since: int,
                            from: seq<Entitled>, until: seq<Entitled>, valid: seq<Resource>, permissions: PermissionMap, kept: set<string>) {
    && until == Rebuilt(valid, permissions, from, kept)
    && AreDecided(dir, history, since, from, ClientIds(valid), kept)
    && (AgreedBefore(dir, before) ==> AreDecidedByTags(dir, from, ClientIds(valid), kept))
  }

  lemma PatchedBefore(dir: Directory, before: seq<Question>, middle: seq<Question>, history: seq<Question>, after: seq<Question>,
                      later: int, since: int, from: seq<Entitled>, until: seq<Entitled>, valid: seq<Resource>,
                      permissions: PermissionMap, kept: set<string>)
    requires IsPatched(dir, middle, history, later, from, until, valid, permissions, kept)
    requires AsksOnly(before, middle, dir.apps) && history <= after && since <= later
    ensures IsPatched(dir, before, after, since, from, until, valid, permissions, kept)
  {
    AllDecidedBefore(dir, history, after, later, from, ClientIds(valid), kept);
    DecidedSince(dir, after, later, since, from, ClientIds(valid), kept);
    if AgreedBefore(dir, before) {
      AgreementIsKept(before, middle, dir.apps);
    }
  }

  /** The app's own client ID is not that of another app. */
  predicate IsOwnClientId(dir: Directory, self: Self) {
    forall a :: a in dir.apps && a.clientId == self.clientId ==> a.name == self.name
  }

  predicate IsOfApp(r: Resource, dir: Directory) {
    exists a :: a in dir.apps && a.clientId == r.clientId && a.name == r.name
  }

  lemma NamedIsOfApp(r: Resource, rules: seq<Rule>, dir: Directory, self: Self)
    requires IsNamed(r, rules, dir, self)
    ensures IsOfApp(r, dir)
  {
  }

  lemma SameClientId(r: Resource, o: Resource, dir: Directory)
    requires HasUniqueClientIds(dir.apps) && IsOfApp(r, dir) && IsOfApp(o, dir) && r.clientId == o.clientId
    ensures r.name == o.name
  {
  }

  lemma DistinctNamesDo(valid: seq<Resource>, dir: Directory)
    requires HasUniqueClientIds(dir.apps) && HasDistinctNames(valid) && forall r :: r in valid ==> IsOfApp(r, dir)
    ensures HasDistinctClientIds(valid)
  {
    forall i, j | 0 <= i < j < |valid|
      ensures valid[i].clientId != valid[j].clientId
    {
      if valid[i].clientId == valid[j].clientId {
        assert valid[i] in valid && valid[j] in valid;
        SameClientId(valid[i], valid[j], dir);
      }
    }
  }

  /** No two valid apps have the same client ID. */
  lemma DesiredAreDistinct(rules: seq<Rule>, dir: Directory, self: Self)
    requires HasUniqueClientIds(dir.apps) && IsOwnClientId(dir, self)
    ensures HasDistinctClientIds(DesiredApps(rules, dir, self).valid)
  {
    ValidAreNamed(rules, dir, self);
    var sorted := Sorted(rules, dir, self).valid;
    forall r | r in sorted
      ensures IsOfApp(r, dir)
    {
      NamedIsOfApp(r, rules, dir, self);
    }
    DistinctNamesDo(sorted, dir);
    if !HasName(sorted, self.name) {
      forall i | 0 <= i < |sorted|
        ensures sorted[i].clientId != self.clientId
      {
        assert sorted[i] in sorted;
        var a :| a in dir.apps && a.clientId == sorted[i].clientId && a.name == sorted[i].name;
      }
    }
  }

  /** A service principal has one client ID, and is found by it. */
  predicate IsConsistent(dir: Directory) {
    forall c :: c in dir.principalIds ==> dir.principalIds[c] in dir.principals && dir.principals[dir.principalIds[c]] == c
  }

  lemma ValidAreRegistered(rules: seq<Rule>, dir: Directory, self: Self)
    requires IsConsistent(dir) && IsRegistered(dir, self.servicePrincipalId)
    ensures AreRegistered(dir, DesiredApps(rules, dir, self).valid)
    ensures forall r :: r in DesiredApps(rules, dir, self).valid ==> r.kind.ServicePrincipal?
  {
    ValidAreNamed(rules, dir, self);
    forall r | r in Sorted(rules, dir, self).valid
      ensures IsRegistered(dir, r.objectId) && r.kind.ServicePrincipal?
    {
      var rule :| rule in rules && Target(rule, dir, self) == Some(r);
      var found := Lookup(dir.apps, ByName(UniqueName(WithDefaults(rule, self)))).value.value;
      assert found in dir.apps && found.clientId in dir.principalIds && r.objectId == dir.principalIds[found.clientId];
    }
  }

  /** Names, client IDs and service principals are unique, and the app itself is there. */
  predicate DirectoryIsInOrder(dir: Directory, self: Self) {
    && IsUnambiguous(dir.apps) && IsConsistent(dir) && HasApp(dir, self)
    && self.servicePrincipalId in dir.principals && dir.principals[self.servicePrincipalId] == self.clientId
  }

  lemma ValidHaveObjectIds(rules: seq<Rule>, dir: Directory, self: Self)
    requires DirectoryIsInOrder(dir, self)
    ensures forall r :: r in DesiredApps(rules, dir, self).valid ==>
              r.objectId in dir.principals && dir.principals[r.objectId] == r.clientId
  {
    ValidAreNamed(rules, dir, self);
    forall r | r in Sorted(rules, dir, self).valid
      ensures r.objectId in dir.principals && dir.principals[r.objectId] == r.clientId
    {
      var rule :| rule in rules && Target(rule, dir, self) == Some(r);
    }
  }

  /** Then no valid app is there twice, by whatever ID. */
  lemma ValidAreApart(rules: seq<Rule>, dir: Directory, self: Self)
    requires DirectoryIsInOrder(dir, self)
    ensures HasDistinctClientIds(DesiredApps(rules, dir, self).valid) && HasDistinctObjectIds(DesiredApps(rules, dir, self).valid)
  {
    DesiredAreDistinct(rules, dir, self);
    ValidHaveObjectIds(rules, dir, self);
    var valid := DesiredApps(rules, dir, self).valid;
    forall i, j | 0 <= i < j < |valid|
      ensures valid[i].objectId != valid[j].objectId
    {
      assert valid[i] in valid && valid[j] in valid;
    }
  }

  function RoleKeys(valid: seq<Resource>, permissions: PermissionMap, self: Self): set<Key> {
    DesiredKeys(valid, ServicePrincipal, permissions, self.servicePrincipalId)
  }

  /** The directory is in order, and the cache agreed with it before. */
  predicate CanBeJudged(dir: Directory, before: seq<Question>, self: Self, current: set<Assignment>, valid: seq<Resource>) {
    AgreedBefore(dir, before) && DirectoryIsInOrder(dir, self) && HaveApps(dir, current) && KindsMatch(current, valid, ServicePrincipal)
  }

  /** The apps are looked up, and the list is rebuilt. */
  method RebuildList(reg: Registration, dir: Directory, cache: Cache, self: Self, rules: seq<Rule>, permissions: PermissionMap)
    returns (r: Result<Apps>, ghost kept: set<string>)
    requires reg.Valid() && cache.Valid()
    modifies reg`preAuthorized, reg`failures, cache
    ensures reg.Valid() && cache.Valid()
    ensures AsksOnly(old(cache.history), cache.history, dir.apps) && old(cache.now) <= cache.now
    ensures old(cache.failures) <= cache.failures && old(reg.failures) <= reg.failures
    ensures r.Err? && DirectoryIsInOrder(dir, self) ==> old(cache.failures) < cache.failures || old(reg.failures) < reg.failures
    ensures r.Ok? ==> r.value == DesiredApps(rules, dir, self)
    ensures r.Ok? || reg.preAuthorized != old(reg.preAuthorized) ==>
              IsPatched(dir, old(cache.history), cache.history, old(cache.now), old(reg.preAuthorized), reg.preAuthorized,
                        DesiredApps(rules, dir, self).valid, permissions, kept)
  {
    ghost var h0, t0, listed := cache.history, cache.now, reg.preAuthorized;
    kept := {};
    var apps := MapDesired(rules, dir, self, cache);
    if apps.Err? {
      return Err, kept;
    }
    ghost var h1, t1 := cache.history, cache.now;
    if DirectoryIsInOrder(dir, self) {
      ValidAreApart(rules, dir, self);
    }
    var ok;
    ok, kept := Patch(reg, apps.value.valid, permissions, dir, self, cache);
    if ok || reg.preAuthorized != listed {
      PatchedBefore(dir, h0, h1, cache.history, cache.history, t1, t0, listed, reg.preAuthorized, apps.value.valid, permissions, kept);
    }
    r := if ok then apps else Err;
  }

  /** The roles are assigned. Where no call fails, this succeeds exactly if every desired assignment
      that is there is of a tagged app. */
  method AssignRoles(d: Remote, dir: Directory, cache: Cache, self: Self, valid: seq<Resource>, permissions: PermissionMap)
    returns (ok: bool, ghost managed: set<Assignment>)
    requires d.Valid() && cache.Valid() && DistinctIds(permissions)
    modifies d, cache
    ensures d.Valid() && cache.Valid()
    ensures AsksOnly(old(cache.history), cache.history, dir.apps) && old(cache.now) <= cache.now
    ensures ok || d.current != old(d.current) ==>
              IsProcessed(dir, old(cache.history), cache.history, old(cache.now), old(d.current), d.current,
                          RoleKeys(valid, permissions, self), managed, ok)
    ensures old(cache.failures) <= cache.failures && old(d.failures) <= d.failures
    ensures cache.failures == old(cache.failures) && d.failures == old(d.failures) && HasDistinctObjectIds(valid) &&
            CanBeJudged(dir, old(cache.history), self, old(d.current), valid) ==>
              (ok <==> AllThereAreOurs(dir, old(d.current), RoleKeys(valid, permissions, self)))
  {
    ghost var h0, current := cache.history, d.current;
    ok, managed := ProcessForServicePrincipals(d, dir, cache, valid, permissions, self.servicePrincipalId);
    if CanBeJudged(dir, h0, self, current, valid) && AreManaged(dir, h0, cache.history, old(cache.now), current, managed) {
      SeenAreOurs(dir, current, valid, permissions, self.servicePrincipalId, managed);
    }
  }

  /** The list is rebuilt, and then the roles are assigned. */
  method Process(reg: Registration, d: Remote, dir: Directory, cache: Cache, self: Self, rules: seq<Rule>, permissions: PermissionMap)
    returns (r: Result<Apps>, ghost kept: set<string>, ghost managed: set<Assignment>)
    requires reg.Valid() && d.Valid() && cache.Valid() && DistinctIds(permissions)
    modifies reg`preAuthorized, reg`failures, d, cache
    ensures reg.Valid() && d.Valid() && cache.Valid()
    ensures AsksOnly(old(cache.history), cache.history, dir.apps) && old(cache.now) <= cache.now
    ensures old(cache.failures) <= cache.failures && old(reg.failures) <= reg.failures && old(d.failures) <= d.failures
    ensures cache.failures == old(cache.failures) && reg.failures == old(reg.failures) && d.failures == old(d.failures) &&
            CanBeJudged(dir, old(cache.history), self, old(d.current), DesiredApps(rules, dir, self).valid) ==>
              (r.Ok? <==> AllThereAreOurs(dir, old(d.current), RoleKeys(DesiredApps(rules, dir, self).valid, permissions, self)))
    ensures r.Ok? ==> r.value == DesiredApps(rules, dir, self) && HaveEntries(r.value.valid, permissions, reg.preAuthorized)
    ensures r.Ok? || reg.preAuthorized != old(reg.preAuthorized) ==>
              IsPatched(dir, old(cache.history), cache.history, old(cache.now), old(reg.preAuthorized), reg.preAuthorized,
                        DesiredApps(rules, dir, self).valid, permissions, kept)
    ensures r.Ok? || d.current != old(d.current) ==>
              IsProcessed(dir, old(cache.history), cache.history, old(cache.now), old(d.current), d.current,
                          RoleKeys(DesiredApps(rules, dir, self).valid, permissions, self), managed, r.Ok?)
  {
    ghost var h0, t0, listed := cache.history, cache.now, reg.preAuthorized;
    managed := {};
    r, kept := RebuildList(reg, dir, cache, self, rules, permissions);
    if r.Err? {
      return;
    }
    var valid := r.value.valid;
    ghost var h1, t1, current := cache.history, cache.now, d.current;
    if CanBeJudged(dir, h0, self, current, valid) {
      ValidAreApart(rules, dir, self);
      AgreementIsKept(h0, h1, dir.apps);
    }
    var ok;
    ok, managed := AssignRoles(d, dir, cache, self, valid, permissions);
    PatchedBefore(dir, h0, h0, h1, cache.history, t0, t0, listed, reg.preAuthorized, valid, permissions, kept);
    if ok || d.current != current {
      ProcessedBefore(dir, h0, h1, cache.history, cache.history, t1, t0, current, d.current,
                      RoleKeys(valid, permissions, self), managed, ok);
    }
    RebuiltHasEntries(valid, permissions, listed, kept);
    if !ok {
      r := Err;
    }
  }

  // -------------------------------------------------------- reading it back

  predicate HasEntry(list: seq<Entitled>, r: Resource) {
    exists p :: p in list && p.appId == r.clientId
  }

  predicate HasAssignment(list: set<Assignment>, r: Resource) {
    exists a :: a in list && a.principalId == r.objectId && a.kind == r.kind
  }

  function InScopeOf(current: set<Assignment>, kind: PrincipalType, managed: set<Assignment>): set<Assignment> {
    set a | a in current && InScope(a, kind, managed)
  }

  predicate IsAssigned(r: Resource, list: seq<Entitled>, assignments: set<Assignment>) {
    HasEntry(list, r) && HasAssignment(assignments, r)
  }

  /** The valid apps that have been assigned, and the rest behind the invalid ones. */
  function Actual(apps: Apps, list: seq<Entitled>, assignments: set<Assignment>): Apps
    decreases |apps.valid|
  {
    if apps.valid == [] then
      apps
    else
      var last := apps.valid[|apps.valid| - 1];
      var init := Actual(apps.(valid := apps.valid[..|apps.valid| - 1]), list, assignments);
      if IsAssigned(last, list, assignments) then
        init.(valid := init.valid + [last])
      else
        init.(invalid := init.invalid + [last])
  }

  method SelectAssigned(desired: Apps, list: seq<Entitled>, assignments: seq<Assignment>) returns (r: Apps)
    ensures r == Actual(desired, list, set a | a in assignments)
  {
    var valid := desired.valid;
    var given, unassigned := [], desired.invalid;
    for i := 0 to |valid|
      invariant Apps(given, unassigned) == Actual(desired.(valid := valid[..i]), list, set a | a in assignments)
    {
      assert valid[..i + 1][..i] == valid[..i];
      var hasAssignment := exists a :: a in assignments && a.principalId == valid[i].objectId && a.kind == valid[i].kind;
      if HasEntry(list, valid[i]) && hasAssignment {
        given := given + [valid[i]];
      } else {
        unassigned := unassigned + [valid[i]];
      }
    }
    assert valid[..|valid|] == valid;
    return Apps(given, unassigned);
  }

  /** Which apps are read back as assigned: those that are in the list, and that have an assignment. */
  lemma {:induction false} ActualExactly(apps: Apps, list: seq<Entitled>, assignments: set<Assignment>)
    ensures forall r :: r in Actual(apps, list, assignments).valid <==>
                        && r in apps.valid
                        && (exists p :: p in list && p.appId == r.clientId)
                        && (exists a :: a in assignments && a.principalId == r.objectId && a.kind == r.kind)
    ensures forall r :: r in Actual(apps, list, assignments).invalid <==>
                        r in apps.invalid || (r in apps.valid && r !in Actual(apps, list, assignments).valid)
    decreases |apps.valid|
  {
    if apps.valid != [] {
      var valid, last := apps.valid[..|apps.valid| - 1], apps.valid[|apps.valid| - 1];
      ActualExactly(apps.(valid := valid), list, assignments);
      assert apps.valid == valid + [last];
    }
  }

  method MapDesiredAndSelf(rules: seq<Rule>, dir: Directory, self: Self, cache: Cache) returns (r: Result<Apps>)
    requires cache.Valid()
    modifies cache
    ensures cache.Valid() && AsksOnly(old(cache.history), cache.history, dir.apps) && old(cache.now) <= cache.now
    ensures r.Ok? ==> r.value == DesiredApps(rules, dir, self)
    ensures old(cache.failures) <= cache.failures
    ensures r.Err? && IsUnambiguous(dir.apps) && HasApp(dir, self) ==> old(cache.failures) < cache.failures
  {
    r := MapDesired(rules, dir, self, cache);
    if r.Ok? {
      var app :- GetSelf(dir, self, cache);
    }
  }

  method Get(reg: Registration, d: Remote, dir: Directory, cache: Cache, self: Self, rules: seq<Rule>)
    returns (r: Result<Apps>, ghost managed: set<Assignment>)
    requires d.Valid() && cache.Valid()
    modifies cache, d`failures
    ensures d.Valid() && cache.Valid() && AsksOnly(old(cache.history), cache.history, dir.apps) && old(cache.now) <= cache.now
    ensures old(cache.failures) <= cache.failures && old(d.failures) <= d.failures
    ensures r.Err? && IsUnambiguous(dir.apps) && HasApp(dir, self) && HaveApps(dir, d.current) ==>
              old(cache.failures) < cache.failures || old(d.failures) < d.failures
    ensures r.Ok? ==>
              && r.value == Actual(DesiredApps(rules, dir, self), reg.preAuthorized, InScopeOf(d.current, ServicePrincipal, managed))
              && AreManaged(dir, old(cache.history), cache.history, old(cache.now), d.current, managed)
  {
    ghost var h0, t0 := cache.history, cache.now;
    managed := {};
    var desired := MapDesiredAndSelf(rules, dir, self, cache);
    if desired.Err? {
      return Err, managed;
    }
    ghost var h1, t1 := cache.history, cache.now;
    var all;
    all, managed := GetAllServicePrincipals(d, dir, cache);
    if all.Err? {
      return Err, managed;
    }
    ManagedBefore(dir, h0, h1, cache.history, cache.history, t1, t0, d.current, managed);
    var actual := SelectAssigned(desired.value, reg.preAuthorized, all.value);
    assert InScopeOf(d.current, ServicePrincipal, managed) == set a | a in all.value;
    r := Ok(actual);
  }

  // ------------------------------------------------------------- theorems

  lemma {:induction false} SameKept(list: seq<Entitled>, kept: set<string>, kept': set<string>)
    requires forall p :: p in list ==> (p.appId in kept <==> p.appId in kept')
    ensures Kept(list, kept) == Kept(list, kept')
  {
    if list != [] {
      SameKept(list[..|list| - 1], kept, kept');
      assert list[|list| - 1] in list;
    }
  }

  /** Where the cache agrees with the tags, the list is the one that there would be without it. */
  lemma CacheFree(dir: Directory, valid: seq<Resource>, permissions: PermissionMap, existing: seq<Entitled>, kept: set<string>)
    requires AreDecidedByTags(dir, existing, ClientIds(valid), kept) && kept !! ClientIds(valid)
    ensures Rebuilt(valid, permissions, existing, kept) == Rebuilt(valid, permissions, existing, Unmanaged(dir, existing, valid))
  {
    forall p | p in existing
      ensures p.appId in kept <==> p.appId in Unmanaged(dir, existing, valid)
    {
      if p.appId !in ClientIds(valid) {
        assert IsDecidedByTags(dir, p.appId, p.appId in kept);
      }
    }
    SameKept(existing, kept, Unmanaged(dir, existing, valid));
  }

  /** Fifteen minutes after an app has been tagged, only the spec keeps it in the list. */
  lemma StaleEntriesEnd(dir: Directory, before: seq<Question>, history: seq<Question>, since: int,
                        from: seq<Entitled>, until: seq<Entitled>, valid: seq<Resource>, permissions: PermissionMap,
                        kept: set<string>, p: Entitled, tagged: int)
    requires IsPatched(dir, before, history, since, from, until, valid, permissions, kept) && p in until
    requires forall q :: q in history && q.id == p.appId && tagged <= q.now ==> IsTagged(q.tags)
    requires tagged + 15 * 60 < since
    ensures exists r :: r in valid && p == EntitledTo(r, permissions)
  {
  }

  lemma {:induction false} AllAssigned(apps: Apps, list: seq<Entitled>, assignments: set<Assignment>)
    ensures Actual(apps, list, assignments) == apps <==> forall r :: r in apps.valid ==> IsAssigned(r, list, assignments)
    ensures |Actual(apps, list, assignments).valid| <= |apps.valid|
    decreases |apps.valid|
  {
    if apps.valid != [] {
      var valid, last := apps.valid[..|apps.valid| - 1], apps.valid[|apps.valid| - 1];
      var init := Actual(apps.(valid := valid), list, assignments);
      AllAssigned(apps.(valid := valid), list, assignments);
      assert apps.valid == valid + [last];
      if IsAssigned(last, list, assignments) {
        assert Actual(apps, list, assignments) == init.(valid := init.valid + [last]);
        assert init.valid + [last] == valid + [last] ==> init.valid == (valid + [last])[..|valid|] == valid;
      } else {
        assert Actual(apps, list, assignments).valid == init.valid;
        assert last in apps.valid;
      }
    }
  }

  /** The app role that every app gets. */
  predicate HasDefaultRole(permissions: PermissionMap) {
    DEFAULT_ROLE_NAME in permissions && permissions[DEFAULT_ROLE_NAME].enabled && permissions[DEFAULT_ROLE_NAME].name == DEFAULT_ROLE_NAME
  }

  lemma AssignedWhereOurs(dir: Directory, r: Resource, valid: seq<Resource>, permissions: PermissionMap, target: string,
                          from: seq<Entitled>, kept: set<string>, before: set<Assignment>, after: set<Assignment>,
                          managed: set<Assignment>, managedThen: set<Assignment>)
    requires HasDefaultRole(permissions) && r in valid && r.kind.ServicePrincipal? && IsRegistered(dir, r.objectId)
    requires IsReached(before, after, DesiredKeys(valid, ServicePrincipal, permissions, target), ServicePrincipal, managed)
    requires KindsMatch(after, valid, ServicePrincipal)
    requires forall a :: a in after && a.kind.ServicePrincipal? ==> IsTruth(dir, a, a in managedThen)
    ensures IsAssigned(r, Rebuilt(valid, permissions, from, kept), InScopeOf(after, ServicePrincipal, managedThen)) <==>
            IsOurs(dir, r.objectId)
  {
    var list := Rebuilt(valid, permissions, from, kept);
    var i :| 0 <= i < |valid| && valid[i] == r;
    assert list[i] == EntitledTo(r, permissions);
    assert HasEntry(list, r);
    var k := Key(permissions[DEFAULT_ROLE_NAME].id, r.objectId, target);
    assert Wants(r, ServicePrincipal, permissions[DEFAULT_ROLE_NAME]);
    assert k in DesiredKeys(valid, ServicePrincipal, permissions, target);
    var a :| a in after && KeyOf(a) == k;
    assert a.kind.ServicePrincipal? && a.principalId == r.objectId;
    forall b | b in after && b.principalId == r.objectId && b.kind.ServicePrincipal?
      ensures b in managedThen <==> IsOurs(dir, r.objectId)
    {
      TruthIsOurs(dir, b, b in managedThen);
    }
    if IsOurs(dir, r.objectId) {
      assert a in InScopeOf(after, ServicePrincipal, managedThen);
    }
  }

  predicate AllAreOurs(dir: Directory, valid: seq<Resource>) {
    forall r :: r in valid ==> IsOurs(dir, r.objectId)
  }

  /** Reading back right after processing gives the same lists exactly if all the valid apps
      are tagged as managed, as far as what is read back is the truth. */
  lemma GetAgreesWithProcess(dir: Directory, apps: Apps, permissions: PermissionMap, target: string, from: seq<Entitled>,
                             kept: set<string>, before: set<Assignment>, after: set<Assignment>,
                             managed: set<Assignment>, managedThen: set<Assignment>)
    requires HasDefaultRole(permissions) && AreRegistered(dir, apps.valid) && forall r :: r in apps.valid ==> r.kind.ServicePrincipal?
    requires IsReached(before, after, DesiredKeys(apps.valid, ServicePrincipal, permissions, target), ServicePrincipal, managed)
    requires KindsMatch(after, apps.valid, ServicePrincipal)
    requires forall a :: a in after && a.kind.ServicePrincipal? ==> IsTruth(dir, a, a in managedThen)
    ensures Actual(apps, Rebuilt(apps.valid, permissions, from, kept), InScopeOf(after, ServicePrincipal, managedThen)) == apps <==>
            AllAreOurs(dir, apps.valid)
  {
    var list, assignments := Rebuilt(apps.valid, permissions, from, kept), InScopeOf(after, ServicePrincipal, managedThen);
    AllAssigned(apps, list, assignments);
    forall r | r in apps.valid
      ensures IsAssigned(r, list, assignments) <==> IsOurs(dir, r.objectId)
    {
      AssignedWhereOurs(dir, r, apps.valid, permissions, target, from, kept, before, after, managed, managedThen);
    }
  }

  /** Processing and reading back, on a directory that does not change in between, with a cache
      that agrees with the tags. */
  method ProcessAndGet(reg: Registration, d: Remote, dir: Directory, cache: Cache, self: Self, rules: seq<Rule>, permissions: PermissionMap)
    returns (processed: Result<Apps>, read: Result<Apps>)
    requires reg.Valid() && d.Valid() && cache.Valid() && DistinctIds(permissions) && HasDefaultRole(permissions)
    requires AgreedBefore(dir, cache.history) && IsConsistent(dir) && IsRegistered(dir, self.servicePrincipalId)
    requires KindsMatch(d.current, DesiredApps(rules, dir, self).valid, ServicePrincipal)
    modifies reg`preAuthorized, reg`failures, d, cache
    ensures processed.Ok? && read.Ok? ==> (read == processed <==> AllAreOurs(dir, processed.value.valid))
  {
    ghost var from, before, kept, managed, managedThen := reg.preAuthorized, d.current, {}, {}, {};
    processed, kept, managed := Process(reg, d, dir, cache, self, rules, permissions);
    if processed.Err? {
      return processed, Err;
    }
    AgreementIsKept(old(cache.history), cache.history, dir.apps);
    read, managedThen := Get(reg, d, dir, cache, self, rules);
    if read.Ok? {
      ValidAreRegistered(rules, dir, self);
      GetAgreesWithProcess(dir, processed.value, permissions, self.servicePrincipalId, from, kept, before, d.current, managed, managedThen);
    }
  }
}
