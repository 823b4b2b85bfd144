/** What the rules of a spec come to: which apps are in the list of pre-authorized apps, and with
    which scopes; and which of them are assigned which roles. */
module Entitlements {

  import opened Applications
  import opened Assignments
  import opened Permissions
  import opened PreAuthorized
  import opened Wrappers

  // ------------------------------------------------------------- the rules

  /** The app that a rule names. A rule without cluster or namespace names one of the app's own. */
  function NameIn(rule: Rule, self: Self): string {
    (if rule.cluster == "" then self.cluster else rule.cluster) + ":" +
    (if rule.namespace == "" then self.namespace else rule.namespace) + ":" + rule.application
  }

  /** An app of that name, with its service principal, is there. */
  predicate IsThere(a: App, name: string, dir: Directory) {
    a in dir.apps && a.name == name && a.clientId in dir.principalIds
  }

  /** No rule before it names the same app. */
  predicate IsFirst(rules: seq<Rule>, self: Self, f: nat) {
    f < |rules| && forall j :: 0 <= j < f ==> NameIn(rules[j], self) != NameIn(rules[f], self)
  }

  /** The rule decides on what the app gets. */
  predicate Decides(rules: seq<Rule>, dir: Directory, self: Self, f: nat, a: App) {
    IsFirst(rules, self, f) && IsThere(a, NameIn(rules[f], self), dir)
  }

  predicate HasScope(grants: Option<Grants>, n: string) {
    n == "defaultaccess" || (grants.Some? && n in grants.value.scopes)
  }

  predicate HasRole(grants: Option<Grants>, n: string) {
    n == "access_as_application" || (grants.Some? && n in grants.value.roles)
  }

  lemma TargetExactly(rule: Rule, dir: Directory, self: Self)
    ensures UniqueName(WithDefaults(rule, self)) == NameIn(rule, self)
    ensures Target(rule, dir, self).Some? ==>
              var r := Target(rule, dir, self).value;
              && r.name == NameIn(rule, self) && r.grants == rule.grants && r.kind.ServicePrincipal?
              && exists a :: IsThere(a, NameIn(rule, self), dir) && a.clientId == r.clientId && dir.principalIds[a.clientId] == r.objectId
  {
    if Target(rule, dir, self).Some? {
      var a := Lookup(dir.apps, ByName(UniqueName(WithDefaults(rule, self)))).value.value;
      assert IsThere(a, NameIn(rule, self), dir);
    }
  }

  lemma ThereIsTarget(rule: Rule, dir: Directory, self: Self, a: App)
    requires IsUnambiguous(dir.apps) && IsThere(a, NameIn(rule, self), dir)
    ensures Target(rule, dir, self) ==
            Some(Resource(a.name, a.clientId, dir.principalIds[a.clientId], ServicePrincipal, rule.grants))
  {
    TargetExactly(rule, dir, self);
    NeverAmbiguous(dir.apps, ByName(NameIn(rule, self)));
    assert Matches(ByName(NameIn(rule, self)), a);
  }

  lemma {:induction false} FirstIsValid(rules: seq<Rule>, dir: Directory, self: Self, f: nat)
    requires IsFirst(rules, self, f) && Target(rules[f], dir, self).Some?
    ensures Target(rules[f], dir, self).value in Sorted(rules, dir, self).valid
  {
    var init, last := rules[..|rules| - 1], rules[|rules| - 1];
    var before, r := Sorted(init, dir, self).valid, Target(rules[f], dir, self).value;
    TargetExactly(rules[f], dir, self);
    if f < |init| {
      FirstIsValid(init, dir, self, f);
    } else if HasName(before, r.name) {
      var o :| o in before && o.name == r.name;
      ValidAreNamed(init, dir, self);
      var rule :| rule in init && Target(rule, dir, self) == Some(o);
      TargetExactly(rule, dir, self);
      assert false;
    }
  }

  /** The rule is the first to name the app, as this resource. */
  predicate IsFirstFor(rules: seq<Rule>, dir: Directory, self: Self, f: nat, r: Resource) {
    IsFirst(rules, self, f) && Target(rules[f], dir, self) == Some(r)
  }

  lemma StillFirst(init: seq<Rule>, last: Rule, dir: Directory, self: Self, f: nat, r: Resource)
    requires IsFirstFor(init, dir, self, f, r)
    ensures IsFirstFor(init + [last], dir, self, f, r)
  {
  }

  lemma LastIsFirst(init: seq<Rule>, last: Rule, dir: Directory, self: Self, r: Resource)
    requires r in WithRule(Sorted(init, dir, self), WithDefaults(last, self), dir).valid && r !in Sorted(init, dir, self).valid
    ensures IsFirstFor(init + [last], dir, self, |init|, r)
  {
    NotNamedBefore(init, dir, self, last);
    assert (init + [last])[|init|] == last;
  }

  lemma {:induction false} ValidHasFirst(rules: seq<Rule>, dir: Directory, self: Self, r: Resource)
    requires r in Sorted(rules, dir, self).valid
    ensures exists f: nat :: IsFirstFor(rules, dir, self, f, r)
  {
    var init, last := rules[..|rules| - 1], rules[|rules| - 1];
    assert rules == init + [last];
    if r in Sorted(init, dir, self).valid {
      ValidHasFirst(init, dir, self, r);
      var f: nat :| IsFirstFor(init, dir, self, f, r);
      StillFirst(init, last, dir, self, f, r);
    } else {
      LastIsFirst(init, last, dir, self, r);
    }
  }

  lemma NotNamedBefore(init: seq<Rule>, dir: Directory, self: Self, last: Rule)
    requires Target(last, dir, self).Some? && !HasName(Sorted(init, dir, self).valid, Target(last, dir, self).value.name)
    ensures forall j :: 0 <= j < |init| ==> NameIn(init[j], self) != NameIn(last, self)
  {
    TargetExactly(last, dir, self);
    forall j | 0 <= j < |init|
      ensures NameIn(init[j], self) != NameIn(last, self)
    {
      TargetExactly(init[j], dir, self);
      if NameIn(init[j], self) == NameIn(last, self) {
        assert Target(init[j], dir, self) == Some(Target(last, dir, self).value.(grants := init[j].grants));
        NamedAreValid(init, dir, self, init[j]);
      }
    }
  }

  // --------------------------------------------------- who is in the list

  /** The app has an entry, with its scopes. */
  ghost predicate IsListed(list: seq<Entitled>, clientId: string, grants: Option<Grants>, permissions: PermissionMap) {
    exists p :: p in list && IsEntryFor(p, clientId, grants, permissions)
  }

  predicate IsNamedByNone(rules: seq<Rule>, dir: Directory, self: Self) {
    forall f: nat, a | f < |rules| && a in dir.apps :: Decides(rules, dir, self, f, a) ==> a.name != self.name
  }

  /** Every app that a rule names is in the list, with the scopes of the first rule that names it; and so
      is the app itself. Whatever else is in the list was there before, of an app that is to be kept. */
  ghost predicate RulesAreListed(rules: seq<Rule>, dir: Directory, self: Self, permissions: PermissionMap,
                                 from: seq<Entitled>, until: seq<Entitled>, kept: set<string>) {
    && (forall f: nat, a :: Decides(rules, dir, self, f, a) ==> IsListed(until, a.clientId, rules[f].grants, permissions))
    && (IsNamedByNone(rules, dir, self) ==> IsListed(until, self.clientId, None, permissions))
    && (forall p :: p in from && p.appId in kept ==> p in until)
    && (forall p :: p in until ==>
          || (p in from && p.appId in kept)
          || IsEntryFor(p, self.clientId, None, permissions)
          || (exists f: nat, a :: Decides(rules, dir, self, f, a) && IsEntryFor(p, a.clientId, rules[f].grants, permissions)))
  }

  lemma DecidesValid(rules: seq<Rule>, dir: Directory, self: Self, f: nat, a: App)
    requires IsUnambiguous(dir.apps) && Decides(rules, dir, self, f, a)
    ensures Resource(a.name, a.clientId, dir.principalIds[a.clientId], ServicePrincipal, rules[f].grants) in
              DesiredApps(rules, dir, self).valid
  {
    ThereIsTarget(rules[f], dir, self, a);
    FirstIsValid(rules, dir, self, f);
  }

  /** A valid app is decided on by a rule, or is the app itself. */
  lemma ValidIsDecided(rules: seq<Rule>, dir: Directory, self: Self, r: Resource)
    requires r in DesiredApps(rules, dir, self).valid
    ensures r == OwnResource(self) ||
            exists f: nat, a :: Decides(rules, dir, self, f, a) && r.clientId == a.clientId && r.objectId == dir.principalIds[a.clientId] &&
                                r.grants == rules[f].grants && r.kind.ServicePrincipal?
  {
    if r in Sorted(rules, dir, self).valid {
      ValidHasFirst(rules, dir, self, r);
      var f: nat :| IsFirstFor(rules, dir, self, f, r);
      TargetExactly(rules[f], dir, self);
      var a :| IsThere(a, NameIn(rules[f], self), dir) && a.clientId == r.clientId && dir.principalIds[a.clientId] == r.objectId;
      assert Decides(rules, dir, self, f, a);
    }
  }

  lemma OwnIsValid(rules: seq<Rule>, dir: Directory, self: Self)
    requires IsNamedByNone(rules, dir, self)
    ensures OwnResource(self) in DesiredApps(rules, dir, self).valid
  {
    forall r | r in Sorted(rules, dir, self).valid
      ensures r.name != self.name
    {
      ValidHasFirst(rules, dir, self, r);
      var f: nat :| IsFirstFor(rules, dir, self, f, r);
      TargetExactly(rules[f], dir, self);
      var a :| IsThere(a, NameIn(rules[f], self), dir);
      assert Decides(rules, dir, self, f, a);
    }
  }

  /** A list that has been rebuilt follows the rules. */
  lemma RebuiltFollowsRules(rules: seq<Rule>, dir: Directory, self: Self, permissions: PermissionMap, from: seq<Entitled>, kept: set<string>)
    requires IsUnambiguous(dir.apps)
    ensures RulesAreListed(rules, dir, self, permissions, from, Rebuilt(DesiredApps(rules, dir, self).valid, permissions, from, kept), kept)
  {
    var valid := DesiredApps(rules, dir, self).valid;
    var until := Rebuilt(valid, permissions, from, kept);
    RebuiltHasEntries(valid, permissions, from, kept);
    forall f: nat, a | Decides(rules, dir, self, f, a)
      ensures IsListed(until, a.clientId, rules[f].grants, permissions)
    {
      DecidesValid(rules, dir, self, f, a);
    }
    if IsNamedByNone(rules, dir, self) {
      OwnIsValid(rules, dir, self);
    }
    forall p | p in from && p.appId in kept {
      RebuiltEntries(valid, permissions, from, kept, p);
    }
    forall p | p in until && !(p in from && p.appId in kept)
      ensures IsEntryFor(p, self.clientId, None, permissions) ||
              exists f: nat, a :: Decides(rules, dir, self, f, a) && IsEntryFor(p, a.clientId, rules[f].grants, permissions)
    {
      NewEntryFollowsRules(rules, dir, self, permissions, from, kept, p);
    }
  }

  lemma NewEntryFollowsRules(rules: seq<Rule>, dir: Directory, self: Self, permissions: PermissionMap, from: seq<Entitled>,
                             kept: set<string>, p: Entitled)
    requires p in Rebuilt(DesiredApps(rules, dir, self).valid, permissions, from, kept)
    requires !(p in from && p.appId in kept)
    ensures IsEntryFor(p, self.clientId, None, permissions) ||
            exists f: nat, a :: Decides(rules, dir, self, f, a) && IsEntryFor(p, a.clientId, rules[f].grants, permissions)
  {
    var valid := DesiredApps(rules, dir, self).valid;
    RebuiltEntries(valid, permissions, from, kept, p);
    var r :| r in valid && p == EntitledTo(r, permissions);
    EntitledExactly(r, permissions);
    ValidIsDecided(rules, dir, self, r);
  }

  // ---------------------------------------------------- who has which role

  predicate IsAssignedTo(current: set<Assignment>, roleId: string, principalId: string, resourceId: string) {
    exists a :: a in current && a.roleId == roleId && a.principalId == principalId && a.resourceId == resourceId
  }

  /** A rule gives the role to the service principal, or it is the default role of the app's own. */
  ghost predicate IsGivenTo(rules: seq<Rule>, dir: Directory, self: Self, n: string, principalId: string) {
    || (n == "access_as_application" && principalId == self.servicePrincipalId)
    || exists f: nat, a :: Decides(rules, dir, self, f, a) && dir.principalIds[a.clientId] == principalId && HasRole(rules[f].grants, n)
  }

  /** Whatever has been assigned, or was already and is managed, is given. */
  ghost predicate OnlyGivenAreLeft(rules: seq<Rule>, dir: Directory, self: Self, permissions: PermissionMap,
                                   from: set<Assignment>, until: set<Assignment>, managed: set<Assignment>) {
    forall x :: x in until && (x !in from || (x.kind.ServicePrincipal? && x in managed)) ==>
      && x.kind.ServicePrincipal? && x.resourceId == self.servicePrincipalId
      && exists n :: n in permissions && permissions[n].enabled && permissions[n].id == x.roleId &&
                     IsGivenTo(rules, dir, self, n, x.principalId)
  }

  /** Every app that a rule names is assigned the default role, and the roles of the first rule that names it,
      as far as they are enabled; and so is the app itself, but for the default role only. No other assignment
      is made, or left to a managed app; those of other principals are left alone. */
  ghost predicate RulesAreAssigned(rules: seq<Rule>, dir: Directory, self: Self, permissions: PermissionMap,
                                   from: set<Assignment>, until: set<Assignment>, managed: set<Assignment>) {
    && (forall f: nat, a, n :: Decides(rules, dir, self, f, a) && n in permissions && permissions[n].enabled && HasRole(rules[f].grants, n) ==>
          IsAssignedTo(until, permissions[n].id, dir.principalIds[a.clientId], self.servicePrincipalId))
    && (var n := "access_as_application";
        IsNamedByNone(rules, dir, self) && n in permissions && permissions[n].enabled ==>
          IsAssignedTo(until, permissions[n].id, self.servicePrincipalId, self.servicePrincipalId))
    && OnlyGivenAreLeft(rules, dir, self, permissions, from, until, managed)
    && (forall x :: x in from && !(x.kind.ServicePrincipal? && x in managed) ==> x in until)
  }

  lemma WantedIsDesired(r: Resource, valid: seq<Resource>, permissions: PermissionMap, self: Self, n: string)
    requires DistinctIds(permissions) && r in valid && r.kind.ServicePrincipal?
    requires n in permissions && permissions[n].enabled && HasRole(r.grants, n)
    ensures Key(permissions[n].id, r.objectId, self.servicePrincipalId) in RoleKeys(valid, permissions, self)
  {
    assert Wants(r, ServicePrincipal, permissions[n]);
  }

  lemma DesiredIsGiven(rules: seq<Rule>, dir: Directory, self: Self, permissions: PermissionMap, k: Key)
    requires DistinctIds(permissions) && k in RoleKeys(DesiredApps(rules, dir, self).valid, permissions, self)
    ensures k.resourceId == self.servicePrincipalId
    ensures exists n :: n in permissions && permissions[n].enabled && permissions[n].id == k.roleId &&
                        IsGivenTo(rules, dir, self, n, k.principalId)
  {
    var valid := DesiredApps(rules, dir, self).valid;
    var n, r :| n in permissions && permissions[n].enabled && r in valid && r.kind == ServicePrincipal &&
                Wants(r, ServicePrincipal, permissions[n]) && k == Key(permissions[n].id, r.objectId, self.servicePrincipalId);
    ValidIsDecided(rules, dir, self, r);
    assert HasRole(r.grants, n);
    assert IsGivenTo(rules, dir, self, n, r.objectId);
  }

  /** What a complete run reaches follows the rules. */
  lemma ReachedFollowsRules(rules: seq<Rule>, dir: Directory, self: Self, permissions: PermissionMap,
                            from: set<Assignment>, until: set<Assignment>, managed: set<Assignment>)
    requires IsUnambiguous(dir.apps) && DistinctIds(permissions)
    requires IsReached(from, until, RoleKeys(DesiredApps(rules, dir, self).valid, permissions, self), ServicePrincipal, managed)
    ensures RulesAreAssigned(rules, dir, self, permissions, from, until, managed)
  {
    var valid := DesiredApps(rules, dir, self).valid;
    forall f: nat, a, n | Decides(rules, dir, self, f, a) && n in permissions && permissions[n].enabled && HasRole(rules[f].grants, n)
      ensures IsAssignedTo(until, permissions[n].id, dir.principalIds[a.clientId], self.servicePrincipalId)
    {
      DecidesValid(rules, dir, self, f, a);
      var r := Resource(a.name, a.clientId, dir.principalIds[a.clientId], ServicePrincipal, rules[f].grants);
      WantedIsDesired(r, valid, permissions, self, n);
    }
    if IsNamedByNone(rules, dir, self) && "access_as_application" in permissions && permissions["access_as_application"].enabled {
      OwnIsValid(rules, dir, self);
      WantedIsDesired(OwnResource(self), valid, permissions, self, "access_as_application");
    }
    LeftAreGiven(rules, dir, self, permissions, from, until, managed);
  }

  lemma LeftAreGiven(rules: seq<Rule>, dir: Directory, self: Self, permissions: PermissionMap,
                     from: set<Assignment>, until: set<Assignment>, managed: set<Assignment>)
    requires DistinctIds(permissions)
    requires IsReached(from, until, RoleKeys(DesiredApps(rules, dir, self).valid, permissions, self), ServicePrincipal, managed)
    ensures OnlyGivenAreLeft(rules, dir, self, permissions, from, until, managed)
  {
    forall x | x in until && (x !in from || (x.kind.ServicePrincipal? && x in managed))
      ensures x.kind.ServicePrincipal? && x.resourceId == self.servicePrincipalId
      ensures exists n :: n in permissions && permissions[n].enabled && permissions[n].id == x.roleId &&
                          IsGivenTo(rules, dir, self, n, x.principalId)
    {
      assert KeyOf(x) in RoleKeys(DesiredApps(rules, dir, self).valid, permissions, self);
      DesiredIsGiven(rules, dir, self, permissions, KeyOf(x));
    }
  }

  // ------------------------------------------------- rules for the same app

  predicate Holds(list: seq<Entitled>, clientId: string, id: string) {
    exists p :: p in list && p.appId == clientId && id in p.permissionIds
  }

  /** The i-th rule asks for a scope, for an app that the f-th rule is the first to name. */
  predicate Asks(rules: seq<Rule>, dir: Directory, self: Self, permissions: PermissionMap, f: nat, i: nat, a: App, n: string) {
    && Decides(rules, dir, self, f, a) && f <= i < |rules| && NameIn(rules[i], self) == NameIn(rules[f], self)
    && rules[i].grants.Some? && n in rules[i].grants.value.scopes && n in permissions
  }

  lemma HeldAsFirstSays(rules: seq<Rule>, dir: Directory, self: Self, permissions: PermissionMap,
                        from: seq<Entitled>, until: seq<Entitled>, kept: set<string>, f: nat, a: App, n: string)
    requires RulesAreListed(rules, dir, self, permissions, from, until, kept)
    requires HasDistinctAppIds(until) && DistinctIds(permissions) && Decides(rules, dir, self, f, a) && n in permissions
    ensures Holds(until, a.clientId, permissions[n].id) <==> HasScope(rules[f].grants, n)
  {
    var p :| p in until && IsEntryFor(p, a.clientId, rules[f].grants, permissions);
    forall q | q in until && q.appId == a.clientId
      ensures q == p
    {
    }
    assert permissions[n].id in p.permissionIds <==> HasScope(rules[f].grants, n);
  }

  /** Every app has all the scopes that rules ask for it exactly if the first rule that names it asks for
      them all: those that come later are passed over. */
  lemma ScopesAreHeldExactly(rules: seq<Rule>, dir: Directory, self: Self, permissions: PermissionMap,
                             from: seq<Entitled>, until: seq<Entitled>, kept: set<string>)
    requires RulesAreListed(rules, dir, self, permissions, from, until, kept) && HasDistinctAppIds(until) && DistinctIds(permissions)
    ensures (forall f: nat, i: nat, a, n :: Asks(rules, dir, self, permissions, f, i, a, n) ==> Holds(until, a.clientId, permissions[n].id)) <==>
            (forall f: nat, i: nat, a, n :: Asks(rules, dir, self, permissions, f, i, a, n) ==> HasScope(rules[f].grants, n))
  {
    forall f: nat, i: nat, a, n | Asks(rules, dir, self, permissions, f, i, a, n)
      ensures Holds(until, a.clientId, permissions[n].id) <==> HasScope(rules[f].grants, n)
    {
      HeldAsFirstSays(rules, dir, self, permissions, from, until, kept, f, a, n);
    }
  }

  const CALLER := App("1", "c:n:a", [])
  const CALLERS := Directory([CALLER], map["p" := "1"], map["1" := "p"])
  const OWN := Self("c:n:b", "n", "c", "2", "q")
  const TWO_RULES := [Rule("a", "n", "c", Some(Grants([], []))), Rule("a", "n", "c", Some(Grants(["read"], [])))]
  const READ: PermissionMap := map["read" := Permission("read", "r", true)]

  /** Of two rules that name one app, the second asks for a scope that the app does not get. */
  lemma LaterRuleIsPassedOver(kept: set<string>)
    ensures Asks(TWO_RULES, CALLERS, OWN, READ, 0, 1, CALLER, "read")
    ensures !Holds(Rebuilt(DesiredApps(TWO_RULES, CALLERS, OWN).valid, READ, [], kept), "1", "r")
  {
    var until := Rebuilt(DesiredApps(TWO_RULES, CALLERS, OWN).valid, READ, [], kept);
    assert NameIn(TWO_RULES[0], OWN) == NameIn(TWO_RULES[1], OWN) == "c:n:a";
    RebuiltFollowsRules(TWO_RULES, CALLERS, OWN, READ, [], kept);
    DesiredAreDistinct(TWO_RULES, CALLERS, OWN);
    RebuiltIsDistinct(DesiredApps(TWO_RULES, CALLERS, OWN).valid, READ, [], {});
    assert Kept([], kept) == Kept([], {});
    HeldAsFirstSays(TWO_RULES, CALLERS, OWN, READ, [], until, kept, 0, CALLER, "read");
  }
}
