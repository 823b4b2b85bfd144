/** App role assignments of one target: they are planned from a list read once, and
    applied role by role, in any order of the roles. */
module Assignments {

  import opened Applications
  import opened Wrappers
  import opened Permissions

  const DEFAULT_GROUP_ROLE_ID := "00000000-0000-0000-0000-000000000000"

  datatype PrincipalType = Group | ServicePrincipal | User

  datatype Assignment = Assignment(id: string, roleId: string, principalId: string, kind: PrincipalType, resourceId: string)

  datatype Key = Key(roleId: string, principalId: string, resourceId: string)

  /** An app, or a group, that is to be assigned. */
  datatype Resource = Resource(name: string, clientId: string, objectId: string, kind: PrincipalType, grants: Option<Grants>)

  // ------------------------------------------------------- specification

  function KeyOf(a: Assignment): Key {
    Key(a.roleId, a.principalId, a.resourceId)
  }

  function KeysOf(list: seq<Assignment>): set<Key> {
    set a | a in list :: KeyOf(a)
  }

  /** Whether an assignee is to have a role. */
  predicate Wants(r: Resource, kind: PrincipalType, role: Permission) {
    || (kind.Group? && role.id == DEFAULT_GROUP_ROLE_ID)
    || (kind.ServicePrincipal? && role.name == DEFAULT_ROLE_NAME)
    || (r.grants.Some? && role.name in r.grants.value.roles)
  }

  /** The assignments that there should be. */
  function DesiredKeys(assignees: seq<Resource>, kind: PrincipalType, roles: PermissionMap, target: string): set<Key> {
    set n, r | n in roles && roles[n].enabled && r in assignees && r.kind == kind && Wants(r, kind, roles[n]) ::
      Key(roles[n].id, r.objectId, target)
  }

  /** The assignments that are ours to process: those of the given type, and, for service
      principals, of managed ones. */
  predicate InScope(a: Assignment, kind: PrincipalType, managed: set<Assignment>) {
    a.kind == kind && (kind.ServicePrincipal? ==> a in managed)
  }

  function InScopeKeys(current: set<Assignment>, kind: PrincipalType, managed: set<Assignment>): set<Key> {
    set a | a in current && InScope(a, kind, managed) :: KeyOf(a)
  }

  /** Permissions are kept by name, and an ID belongs to one name only. */
  predicate DistinctIds(roles: PermissionMap) {
    && (forall n :: n in roles ==> roles[n].name == n)
    && (forall n, k :: n in roles && k in roles && n != k ==> roles[n].id != roles[k].id)
  }

  /** What holds from start to end, and after any failure: nothing out of scope or desired
      is taken away, and nothing undesired is added. */
  predicate IsSafe(before: set<Assignment>, after: set<Assignment>, desired: set<Key>, kind: PrincipalType, managed: set<Assignment>) {
    && (forall a :: a in before && (!InScope(a, kind, managed) || KeyOf(a) in desired) ==> a in after)
    && (forall a :: a in after ==> a in before || (KeyOf(a) in desired && a.kind == kind))
  }

  /** What a complete run reaches. */
  predicate IsReached(before: set<Assignment>, after: set<Assignment>, desired: set<Key>, kind: PrincipalType, managed: set<Assignment>) {
    && IsSafe(before, after, desired, kind, managed)
    && (forall a :: a in before && InScope(a, kind, managed) && a in after ==> KeyOf(a) in desired)
    && (forall k :: k in desired ==> HasKey(after, k))
  }

  ghost predicate HasUniqueKeys(current: set<Assignment>) {
    forall a, b :: a in current && b in current && KeyOf(a) == KeyOf(b) ==> a == b
  }

  predicate HasKey(current: set<Assignment>, k: Key) {
    exists a :: a in current && KeyOf(a) == k
  }

  predicate HasNoRepeats(list: seq<Assignment>) {
    forall i, j :: 0 <= i < j < |list| ==> list[i] != list[j]
  }

  predicate HasDistinctKeys(list: seq<Assignment>) {
    forall i, j :: 0 <= i < j < |list| ==> KeyOf(list[i]) != KeyOf(list[j])
  }

  predicate HasDistinctObjectIds(resources: seq<Resource>) {
    forall i, j :: 0 <= i < j < |resources| ==> resources[i].objectId != resources[j].objectId
  }

  // ------------------------------------------------------------- the remote

  class Remote {
    var current: set<Assignment>
    ghost var calls: nat
    ghost var failures: nat          // calls that failed, but for those that were refused

    /** The directory keeps IDs and keys unique. */
    ghost predicate Valid()
      reads this
    {
      && (forall a, b :: a in current && b in current && a.id == b.id ==> a == b)
      && HasUniqueKeys(current)
    }

    method GetAll() returns (r: Result<seq<Assignment>>)
      requires Valid()
      modifies this`failures
      ensures Valid()
      ensures r.Ok? ==> (forall a :: a in r.value <==> a in current) && HasNoRepeats(r.value)
      ensures failures == if r.Ok? then old(failures) else old(failures) + 1
    {
      var fails: bool := *;
      if fails {
        failures := failures + 1;
        return Err;
      }
      var rest := current;
      var list := [];
      while rest != {}
        invariant rest <= current
        invariant forall a :: a in list <==> a in current && a !in rest
        invariant HasNoRepeats(list) && failures == old(failures)
        decreases rest
      {
        var a :| a in rest;
        rest := rest - {a};
        list := list + [a];
      }
      return Ok(list);
    }

    /** Adding what is there already is an error. */
    method Add(a: Assignment) returns (ok: bool)
      requires Valid()
      modifies this
      ensures Valid()
      ensures old(current) <= current && forall b :: b in current && b !in old(current) ==> b == a.(id := b.id)
      ensures ok ==> HasKey(current, KeyOf(a))
      ensures HasKey(old(current), KeyOf(a)) ==> !ok && current == old(current)
      ensures calls == old(calls) + 1
      ensures failures == if ok || HasKey(old(current), KeyOf(a)) then old(failures) else old(failures) + 1
    {
      calls := calls + 1;
      if HasKey(current, KeyOf(a)) {
        return false;
      }
      var applied: bool, reported: bool, id: string := *, *, *;
      ok := !(exists b :: b in current && b.id == id) && applied;
      if ok {
        assert KeyOf(a.(id := id)) == KeyOf(a);
        current := current + {a.(id := id)};
      }
      ok := ok && reported;
      if !ok {
        failures := failures + 1;
      }
    }

    method Delete(a: Assignment) returns (ok: bool)
      requires Valid()
      modifies this
      ensures Valid()
      ensures current == old(current) || current == old(current) - {a}
      ensures ok ==> a !in current
      ensures calls == old(calls) + 1
      ensures failures == if ok then old(failures) else old(failures) + 1
    {
      calls := calls + 1;
      var applied: bool, reported: bool := *, *;
      if applied {
        current := current - {a};
      }
      ok := applied && reported;
      if !ok {
        failures := failures + 1;
      }
    }
  }

  // ----------------------------------------------------------------- lists

  method FilterByType(list: seq<Assignment>, kind: PrincipalType) returns (filtered: seq<Assignment>)
    ensures forall a :: a in filtered <==> a in list && a.kind == kind
    ensures HasNoRepeats(list) ==> HasNoRepeats(filtered)
  {
    filtered := [];
    for i := 0 to |list|
      invariant forall a :: a in filtered <==> a in list[..i] && a.kind == kind
      invariant HasNoRepeats(list) ==> HasNoRepeats(filtered)
    {
      if list[i].kind == kind {
        filtered := filtered + [list[i]];
      }
    }
  }

  method FilterByRoleId(list: seq<Assignment>, roleId: string) returns (filtered: seq<Assignment>)
    ensures forall a :: a in filtered <==> a in list && a.roleId == roleId
  {
    filtered := [];
    for i := 0 to |list|
      invariant forall a :: a in filtered <==> a in list[..i] && a.roleId == roleId
    {
      if list[i].roleId == roleId {
        filtered := filtered + [list[i]];
      }
    }
  }

  predicate HasRoleId(roles: PermissionMap, roleId: string) {
    exists n :: n in roles && roles[n].id == roleId
  }

  method WithoutMatchingRole(list: seq<Assignment>, roles: PermissionMap) returns (nonDesired: seq<Assignment>)
    ensures forall a :: a in nonDesired <==> a in list && !HasRoleId(roles, a.roleId)
  {
    nonDesired := [];
    for i := 0 to |list|
      invariant forall a :: a in nonDesired <==> a in list[..i] && !HasRoleId(roles, a.roleId)
    {
      if !HasRoleId(roles, list[i].roleId) {
        nonDesired := nonDesired + [list[i]];
      }
    }
  }

  /** The elements of `a` whose keys are not among those of `b`. */
  method Difference(a: seq<Assignment>, b: seq<Assignment>) returns (diff: seq<Assignment>)
    ensures forall x :: x in diff <==> x in a && KeyOf(x) !in KeysOf(b)
    ensures HasDistinctKeys(a) ==> HasDistinctKeys(diff)
  {
    var mb: set<Key> := {};
    for i := 0 to |b|
      invariant mb == set x | x in b[..i] :: KeyOf(x)
    {
      assert b[..i + 1] == b[..i] + [b[i]];
      mb := mb + {KeyOf(b[i])};
    }
    assert b[..|b|] == b;
    diff := [];
    for i := 0 to |a|
      invariant forall x :: x in diff <==> x in a[..i] && KeyOf(x) !in mb
      invariant HasDistinctKeys(a) ==> HasDistinctKeys(diff)
    {
      if KeyOf(a[i]) !in mb {
        diff := diff + [a[i]];
      }
    }
  }

  method FilterByPrincipalType(resources: seq<Resource>, kind: PrincipalType) returns (filtered: seq<Resource>)
    ensures forall r :: r in filtered <==> r in resources && r.kind == kind
    ensures HasDistinctObjectIds(resources) ==> HasDistinctObjectIds(filtered)
  {
    filtered := [];
    for i := 0 to |resources|
      invariant forall r :: r in filtered <==> r in resources[..i] && r.kind == kind
      invariant HasDistinctObjectIds(resources) ==> HasDistinctObjectIds(filtered)
    {
      if resources[i].kind == kind {
        filtered := filtered + [resources[i]];
      }
    }
  }

  method FilterByRole(resources: seq<Resource>, role: Permission) returns (filtered: seq<Resource>)
    ensures forall r :: r in filtered <==> r in resources && r.grants.Some? && role.name in r.grants.value.roles
    ensures HasDistinctObjectIds(resources) ==> HasDistinctObjectIds(filtered)
  {
    filtered := [];
    for i := 0 to |resources|
      invariant forall r :: r in filtered <==> r in resources[..i] && r.grants.Some? && role.name in r.grants.value.roles
      invariant HasDistinctObjectIds(resources) ==> HasDistinctObjectIds(filtered)
    {
      if resources[i].grants.None? {
        continue;
      }
      var names := resources[i].grants.value.roles;
      var seen: set<string> := {};
      ghost var before := filtered;
      for j := 0 to |names|
        invariant role.name in seen <==> role.name in names[..j]
        invariant filtered == if role.name in names[..j] then before + [resources[i]] else before
      {
        assert names[..j + 1] == names[..j] + [names[j]];
        if names[j] == role.name && names[j] !in seen {
          seen := seen + {names[j]};
          filtered := filtered + [resources[i]];
        }
      }
      assert names[..|names|] == names;
    }
  }

  method ExtractDesiredAssignees(resources: seq<Resource>, kind: PrincipalType, role: Permission) returns (desired: seq<Resource>)
    ensures forall r :: r in desired <==> r in resources && Wants(r, kind, role)
    ensures HasDistinctObjectIds(resources) ==> HasDistinctObjectIds(desired)
  {
    if kind.Group? && role.id == DEFAULT_GROUP_ROLE_ID {
      return resources;
    }
    if kind.ServicePrincipal? && role.name == DEFAULT_ROLE_NAME {
      return resources;
    }
    desired := FilterByRole(resources, role);
  }

  method ToAppRoleAssignments(resources: seq<Resource>, target: string, role: Permission) returns (list: seq<Assignment>)
    ensures forall a :: a in list <==>
                        exists r :: r in resources && a == Assignment("", role.id, r.objectId, r.kind, target)
    ensures HasDistinctObjectIds(resources) ==> HasDistinctKeys(list)
  {
    list := [];
    for i := 0 to |resources|
      invariant |list| == i && forall j :: 0 <= j < i ==> list[j].principalId == resources[j].objectId
      invariant forall a :: a in list <==>
                            exists r :: r in resources[..i] && a == Assignment("", role.id, r.objectId, r.kind, target)
    {
      assert resources[..i + 1] == resources[..i] + [resources[i]];
      list := list + [Assignment("", role.id, resources[i].objectId, resources[i].kind, target)];
    }
    assert resources[..|resources|] == resources;
  }

  // -------------------------------------------------------------- phases

  /** Desired assignments stay, and what comes is desired. */
  predicate OnlyHelps(from: set<Assignment>, until: set<Assignment>, desired: set<Key>) {
    && (forall a :: a in from && KeyOf(a) in desired ==> a in until)
    && (forall a :: a in until ==> a in from || KeyOf(a) in desired)
  }

  lemma HelpsOn(from: set<Assignment>, middle: set<Assignment>, until: set<Assignment>, desired: set<Key>)
    requires OnlyHelps(from, middle, desired) && OnlyHelps(middle, until, desired)
    ensures OnlyHelps(from, until, desired)
  {
  }

  /** For one role, what was there and is not desired is gone, and what is desired is there. */
  predicate RoleDone(existing: seq<Assignment>, current: set<Assignment>, desired: set<Key>, roleId: string) {
    && (forall a :: a in existing && a.roleId == roleId && a in current ==> KeyOf(a) in desired)
    && (forall k :: k in desired && k.roleId == roleId ==> HasKey(current, k))
  }

  /** The existing assignments, as they were read, are in scope. */
  ghost predicate AreExisting(existing: seq<Assignment>, before: set<Assignment>, kind: PrincipalType, managed: set<Assignment>) {
    forall a :: a in existing <==> a in before && InScope(a, kind, managed)
  }

  /** What has been added has the keys of these. */
  predicate AddedAre(from: set<Assignment>, until: set<Assignment>, list: seq<Assignment>) {
    forall a :: a in until && a !in from ==> KeyOf(a) in KeysOf(list)
  }

  /** Something with the key of one of these is there already. */
  predicate AnyIsThere(list: seq<Assignment>, current: set<Assignment>) {
    exists a :: a in list && HasKey(current, KeyOf(a))
  }

  /** These are there, and were not before. */
  predicate AreNew(list: seq<Assignment>, from: set<Assignment>, until: set<Assignment>) {
    forall a :: a in list ==> HasKey(until, KeyOf(a)) && !HasKey(from, KeyOf(a))
  }

  lemma NewOneMore(list: seq<Assignment>, i: nat, from: set<Assignment>, middle: set<Assignment>, until: set<Assignment>)
    requires i < |list| && from <= middle <= until && AreNew(list[..i], from, middle)
    requires HasKey(until, KeyOf(list[i])) && !HasKey(middle, KeyOf(list[i]))
    ensures AreNew(list[..i + 1], from, until)
  {
    assert list[..i + 1] == list[..i] + [list[i]];
    forall k | HasKey(middle, k)
      ensures HasKey(until, k)
    {
      var a :| a in middle && KeyOf(a) == k;
    }
    assert HasKey(from, KeyOf(list[i])) ==> HasKey(middle, KeyOf(list[i]));
  }

  lemma AddingIsSafe(before: set<Assignment>, from: set<Assignment>, middle: set<Assignment>, until: set<Assignment>,
                     desired: set<Key>, kind: PrincipalType, managed: set<Assignment>, a: Assignment)
    requires IsSafe(before, middle, desired, kind, managed) && OnlyHelps(from, middle, desired)
    requires KeyOf(a) in desired && a.kind == kind
    requires middle <= until && forall b :: b in until && b !in middle ==> b == a.(id := b.id)
    ensures IsSafe(before, until, desired, kind, managed) && OnlyHelps(from, until, desired)
  {
  }

  lemma AddedOneMore(from: set<Assignment>, middle: set<Assignment>, until: set<Assignment>, list: seq<Assignment>, i: nat)
    requires i < |list| && AddedAre(from, middle, list[..i])
    requires forall a :: a in until && a !in middle ==> KeyOf(a) == KeyOf(list[i])
    ensures AddedAre(from, until, list[..i + 1]) && AddedAre(from, until, list)
    ensures HasDistinctKeys(list) && HasKey(middle, KeyOf(list[i])) ==> HasKey(from, KeyOf(list[i]))
  {
    assert list[..i + 1] == list[..i] + [list[i]];
    forall a | a in until && a !in from
      ensures KeyOf(a) in KeysOf(list[..i + 1]) && KeyOf(a) in KeysOf(list)
    {
      if a in middle {
        var b :| b in list[..i] && KeyOf(b) == KeyOf(a);
        assert b in list[..i + 1] && b in list;
      } else {
        assert list[i] in list[..i + 1] && list[i] in list;
      }
    }
    if HasDistinctKeys(list) {
      assert KeyOf(list[i]) !in KeysOf(list[..i]);
    }
  }

  method AssignFor(d: Remote, toAssign: seq<Assignment>, ghost before: set<Assignment>, ghost desired: set<Key>,
                   kind: PrincipalType, ghost managed: set<Assignment>)
    returns (ok: bool)
    requires d.Valid() && IsSafe(before, d.current, desired, kind, managed)
    requires forall a :: a in toAssign ==> KeyOf(a) in desired && a.kind == kind
    modifies d
    ensures d.Valid() && IsSafe(before, d.current, desired, kind, managed)
    ensures OnlyHelps(old(d.current), d.current, desired) && old(d.current) <= d.current
    ensures ok ==> AreNew(toAssign, old(d.current), d.current)
    ensures old(d.calls) <= d.calls && (d.calls == old(d.calls) <==> toAssign == [])
    ensures toAssign == [] ==> ok && d.current == old(d.current)
    ensures forall a :: a in d.current && a !in old(d.current) ==> KeyOf(a) in KeysOf(toAssign)
    ensures old(d.failures) <= d.failures && (ok ==> d.failures == old(d.failures))
    ensures !ok && d.failures == old(d.failures) && HasDistinctKeys(toAssign) ==> AnyIsThere(toAssign, old(d.current))
  {
    for i := 0 to |toAssign|
      invariant d.Valid() && IsSafe(before, d.current, desired, kind, managed)
      invariant OnlyHelps(old(d.current), d.current, desired) && old(d.current) <= d.current
      invariant AreNew(toAssign[..i], old(d.current), d.current)
      invariant AddedAre(old(d.current), d.current, toAssign[..i])
      invariant d.calls == old(d.calls) + i && d.failures == old(d.failures)
      invariant i == 0 ==> d.current == old(d.current)
    {
      ghost var from := d.current;
      assert toAssign[i] in toAssign;
      ok := d.Add(toAssign[i]);
      AddedOneMore(old(d.current), from, d.current, toAssign, i);
      AddingIsSafe(before, old(d.current), from, d.current, desired, kind, managed, toAssign[i]);
      if !ok {
        return false;
      }
      NewOneMore(toAssign, i, old(d.current), from, d.current);
    }
    assert toAssign[..|toAssign|] == toAssign;
    return true;
  }

  method RevokeFor(d: Remote, toRevoke: seq<Assignment>, ghost before: set<Assignment>, ghost desired: set<Key>,
                   kind: PrincipalType, ghost managed: set<Assignment>)
    returns (ok: bool)
    requires d.Valid() && IsSafe(before, d.current, desired, kind, managed)
    requires forall a :: a in toRevoke ==> KeyOf(a) !in desired && InScope(a, kind, managed)
    modifies d
    ensures d.Valid() && IsSafe(before, d.current, desired, kind, managed)
    ensures OnlyHelps(old(d.current), d.current, desired) && d.current <= old(d.current)
    ensures ok ==> forall a :: a in toRevoke ==> a !in d.current
    ensures old(d.calls) <= d.calls && (d.calls == old(d.calls) <==> toRevoke == [])
    ensures toRevoke == [] ==> ok && d.current == old(d.current)
    ensures old(d.failures) <= d.failures && (ok <==> d.failures == old(d.failures))
  {
    for i := 0 to |toRevoke|
      invariant d.Valid() && IsSafe(before, d.current, desired, kind, managed)
      invariant OnlyHelps(old(d.current), d.current, desired) && d.current <= old(d.current)
      invariant forall j :: 0 <= j < i ==> toRevoke[j] !in d.current
      invariant d.calls == old(d.calls) + i && d.failures == old(d.failures)
      invariant i == 0 ==> d.current == old(d.current)
    {
      assert toRevoke[i] in toRevoke;
      ok := d.Delete(toRevoke[i]);
      if !ok {
        return false;
      }
    }
    return true;
  }

  /** The keys planned for one role are the desired ones with its ID. */
  lemma PlannedKeys(planned: seq<Assignment>, assignees: seq<Resource>, wanting: seq<Resource>, kind: PrincipalType,
                    roles: PermissionMap, n: string, target: string)
    requires DistinctIds(roles) && n in roles && roles[n].enabled
    requires forall r :: r in wanting <==> r in assignees && r.kind == kind && Wants(r, kind, roles[n])
    requires forall a :: a in planned <==>
                         exists r :: r in wanting && a == Assignment("", roles[n].id, r.objectId, r.kind, target)
    ensures forall k :: k in KeysOf(planned) <==> k in DesiredKeys(assignees, kind, roles, target) && k.roleId == roles[n].id
    ensures forall a :: a in planned ==> a.kind == kind
  {
    var desired := DesiredKeys(assignees, kind, roles, target);
    forall k | k in desired && k.roleId == roles[n].id
      ensures k in KeysOf(planned)
    {
      var m, r :| m in roles && roles[m].enabled && r in assignees && r.kind == kind && Wants(r, kind, roles[m]) &&
                  k == Key(roles[m].id, r.objectId, target);
      assert m == n;
      assert KeyOf(Assignment("", roles[n].id, r.objectId, r.kind, target)) == k;
    }
  }

  /** For one role, exactly what is desired exists. */
  predicate RoleIsExact(existing: seq<Assignment>, desired: set<Key>, roleId: string) {
    forall k :: k in KeysOf(existing) + desired && k.roleId == roleId ==> k in KeysOf(existing) && k in desired
  }

  /** For one role, nothing that is desired is there without being known to exist. */
  predicate NoneOverlooked(existing: seq<Assignment>, current: set<Assignment>, desired: set<Key>, roleId: string) {
    forall a :: a in current && KeyOf(a) in desired && a.roleId == roleId ==> KeyOf(a) in KeysOf(existing)
  }

  /** For one role, what there is to be done: desired keys that are not known to exist are to be
      assigned, and existing ones that are not desired are to be revoked. */
  ghost predicate IsPlan(existing: seq<Assignment>, desired: set<Key>, kind: PrincipalType, roleId: string,
                   toAssign: seq<Assignment>, toRevoke: seq<Assignment>) {
    && (forall k :: k in KeysOf(toAssign) <==> k in desired && k.roleId == roleId && k !in KeysOf(existing))
    && (forall a :: a in toAssign ==> a.kind == kind)
    && (forall a :: a in toRevoke <==> a in existing && a.roleId == roleId && KeyOf(a) !in desired)
  }

  lemma KeysByRole(existing: seq<Assignment>, byRole: seq<Assignment>, roleId: string)
    requires forall a :: a in byRole <==> a in existing && a.roleId == roleId
    ensures forall k :: k in KeysOf(byRole) <==> k in KeysOf(existing) && k.roleId == roleId
  {
    forall k | k in KeysOf(existing) && k.roleId == roleId
      ensures k in KeysOf(byRole)
    {
      var a :| a in existing && KeyOf(a) == k;
      assert a in byRole;
    }
  }

  /** The two differences make up the plan. */
  lemma DifferencesArePlan(existing: seq<Assignment>, byRole: seq<Assignment>, planned: seq<Assignment>, desired: set<Key>,
                           kind: PrincipalType, roleId: string, toAssign: seq<Assignment>, toRevoke: seq<Assignment>)
    requires forall a :: a in byRole <==> a in existing && a.roleId == roleId
    requires forall k :: k in KeysOf(planned) <==> k in desired && k.roleId == roleId
    requires forall a :: a in planned ==> a.kind == kind
    requires forall x :: x in toAssign <==> x in planned && KeyOf(x) !in KeysOf(byRole)
    requires forall x :: x in toRevoke <==> x in byRole && KeyOf(x) !in KeysOf(planned)
    ensures IsPlan(existing, desired, kind, roleId, toAssign, toRevoke)
  {
    KeysByRole(existing, byRole, roleId);
    forall k | k in desired && k.roleId == roleId && k !in KeysOf(existing)
      ensures k in KeysOf(toAssign)
    {
      var x :| x in planned && KeyOf(x) == k;
      assert x in toAssign;
    }
    forall x | x in toAssign
      ensures KeyOf(x) in desired && KeyOf(x).roleId == roleId && KeyOf(x) !in KeysOf(existing)
    {
      assert KeyOf(x) in KeysOf(planned);
    }
  }

  method PlanRole(existing: seq<Assignment>, assignees: seq<Resource>, kind: PrincipalType, roles: PermissionMap, n: string,
                  target: string)
    returns (toAssign: seq<Assignment>, toRevoke: seq<Assignment>)
    requires DistinctIds(roles) && n in roles && roles[n].enabled
    requires forall r :: r in assignees ==> r.kind == kind
    ensures IsPlan(existing, DesiredKeys(assignees, kind, roles, target), kind, roles[n].id, toAssign, toRevoke)
    ensures HasDistinctObjectIds(assignees) ==> HasDistinctKeys(toAssign)
  {
    var role := roles[n];
    var existingByRole := FilterByRoleId(existing, role.id);
    var wanting := ExtractDesiredAssignees(assignees, kind, role);
    var planned := ToAppRoleAssignments(wanting, target, role);
    PlannedKeys(planned, assignees, wanting, kind, roles, n, target);
    toAssign := Difference(planned, existingByRole);
    toRevoke := Difference(existingByRole, planned);
    DifferencesArePlan(existing, existingByRole, planned, DesiredKeys(assignees, kind, roles, target), kind, role.id, toAssign, toRevoke);
  }

  method ProcessRole(d: Remote, existing: seq<Assignment>, assignees: seq<Resource>, kind: PrincipalType,
                     roles: PermissionMap, n: string, target: string,
                     ghost before: set<Assignment>, ghost managed: set<Assignment>)
    returns (ok: bool)
    requires d.Valid() && DistinctIds(roles) && n in roles && roles[n].enabled
    requires forall r :: r in assignees ==> r.kind == kind
    requires AreExisting(existing, before, kind, managed)
    requires IsSafe(before, d.current, DesiredKeys(assignees, kind, roles, target), kind, managed)
    modifies d
    ensures d.Valid() && IsSafe(before, d.current, DesiredKeys(assignees, kind, roles, target), kind, managed)
    ensures OnlyHelps(old(d.current), d.current, DesiredKeys(assignees, kind, roles, target))
    ensures ok ==> RoleDone(existing, d.current, DesiredKeys(assignees, kind, roles, target), roles[n].id)
    ensures ok ==> NoneOverlooked(existing, old(d.current), DesiredKeys(assignees, kind, roles, target), roles[n].id)
    ensures old(d.calls) <= d.calls && (!ok ==> old(d.calls) < d.calls)
    ensures d.calls == old(d.calls) <==> RoleIsExact(existing, DesiredKeys(assignees, kind, roles, target), roles[n].id)
    ensures d.calls == old(d.calls) ==> d.current == old(d.current)
    ensures forall a :: a in d.current && a !in old(d.current) ==> a.roleId == roles[n].id
    ensures old(d.failures) <= d.failures && (ok ==> d.failures == old(d.failures))
    ensures !ok && d.failures == old(d.failures) && HasDistinctObjectIds(assignees) ==>
              !NoneOverlooked(existing, old(d.current), DesiredKeys(assignees, kind, roles, target), roles[n].id)
  {
    ghost var desired, roleId := DesiredKeys(assignees, kind, roles, target), roles[n].id;
    var toAssign, toRevoke := PlanRole(existing, assignees, kind, roles, n, target);
    PlanIsEmpty(existing, desired, kind, roleId, toAssign, toRevoke);
    OverlookedIsPlanned(existing, desired, kind, roleId, toAssign, toRevoke, d.current);
    assert forall a :: a in toAssign ==> KeyOf(a) in KeysOf(toAssign);
    ok := AssignFor(d, toAssign, before, desired, kind, managed);
    if !ok {
      return;
    }
    ghost var halfway := d.current;
    ok := RevokeFor(d, toRevoke, before, desired, kind, managed);
    if ok {
      RoleIsDone(existing, desired, kind, roleId, toAssign, toRevoke, before, halfway, d.current, managed);
    }
  }

  /** Nothing is planned for a role exactly if exactly what is desired exists. */
  lemma PlanIsEmpty(existing: seq<Assignment>, desired: set<Key>, kind: PrincipalType, roleId: string,
                    toAssign: seq<Assignment>, toRevoke: seq<Assignment>)
    requires IsPlan(existing, desired, kind, roleId, toAssign, toRevoke)
    ensures toAssign == [] && toRevoke == [] <==> RoleIsExact(existing, desired, roleId)
  {
    EmptyOrNot(toAssign);
    EmptyOrNot(toRevoke);
    if toAssign == [] && toRevoke == [] {
      assert forall k :: k !in KeysOf(toAssign);
    }
    if RoleIsExact(existing, desired, roleId) {
      assert forall a :: a in toAssign ==> KeyOf(a) in KeysOf(toAssign);
      assert forall a :: a in toRevoke ==> KeyOf(a) in KeysOf(existing);
    }
  }

  /** What is to be assigned is there already exactly if something is overlooked. */
  lemma OverlookedIsPlanned(existing: seq<Assignment>, desired: set<Key>, kind: PrincipalType, roleId: string,
                            toAssign: seq<Assignment>, toRevoke: seq<Assignment>, current: set<Assignment>)
    requires IsPlan(existing, desired, kind, roleId, toAssign, toRevoke)
    ensures AnyIsThere(toAssign, current) <==> !NoneOverlooked(existing, current, desired, roleId)
  {
    if a :| a in current && KeyOf(a) in desired && a.roleId == roleId && KeyOf(a) !in KeysOf(existing) {
      assert KeyOf(a) in KeysOf(toAssign);
      var x :| x in toAssign && KeyOf(x) == KeyOf(a);
      assert HasKey(current, KeyOf(x));
    }
    if x :| x in toAssign && HasKey(current, KeyOf(x)) {
      assert KeyOf(x) in KeysOf(toAssign);
      var a :| a in current && KeyOf(a) == KeyOf(x);
      assert a.roleId == roleId;
    }
  }

  lemma EmptyOrNot<T>(list: seq<T>)
    ensures list == [] || exists x :: x in list
  {
    assert list == [] || list[0] in list;
  }

  lemma RoleIsDone(existing: seq<Assignment>, desired: set<Key>, kind: PrincipalType, roleId: string,
                   toAssign: seq<Assignment>, toRevoke: seq<Assignment>,
                   before: set<Assignment>, halfway: set<Assignment>, after: set<Assignment>, managed: set<Assignment>)
    requires IsPlan(existing, desired, kind, roleId, toAssign, toRevoke)
    requires AreExisting(existing, before, kind, managed)
    requires forall a :: a in toAssign ==> HasKey(halfway, KeyOf(a))
    requires forall a :: a in toRevoke ==> a !in after
    requires OnlyHelps(halfway, after, desired) && IsSafe(before, after, desired, kind, managed)
    ensures RoleDone(existing, after, desired, roleId)
  {
    forall k | k in desired && k.roleId == roleId
      ensures HasKey(after, k)
    {
      if k in KeysOf(existing) {
        var a :| a in existing && KeyOf(a) == k;
        assert a in after;
      } else {
        assert k in KeysOf(toAssign);
        var x :| x in toAssign && KeyOf(x) == k;
        var a :| a in halfway && KeyOf(a) == KeyOf(x);
        assert a in after;
      }
    }
  }

  // ------------------------------------------------------ what there is

  /** Who is managed, as far as a look at the cache or at the directory tells. */
  predicate IsJudged(dir: Directory, history: seq<Question>, since: int, a: Assignment, managed: bool) {
    a.principalId in dir.principals && WasSeen(history, since, dir.principals[a.principalId], managed)
  }

  /** The tags of the app behind an assignment agree. */
  predicate IsTruth(dir: Directory, a: Assignment, managed: bool) {
    forall app :: app in dir.apps && a.principalId in dir.principals && app.clientId == dir.principals[a.principalId] ==>
                  managed == IsTagged(app.tags)
  }

  /** The app behind a service principal is there. */
  predicate IsRegistered(dir: Directory, principalId: string) {
    principalId in dir.principals && exists app :: app in dir.apps && app.clientId == dir.principals[principalId]
  }

  lemma RegisteredIsFound(dir: Directory, principalId: string)
    requires principalId in dir.principals
    ensures HasUniqueClientIds(dir.apps) && IsRegistered(dir, principalId) ==> IsFound(dir.apps, ByClientId(dir.principals[principalId]))
  {
    if HasUniqueClientIds(dir.apps) && IsRegistered(dir, principalId) {
      var app :| app in dir.apps && app.clientId == dir.principals[principalId];
      ClientIdLookup(dir.apps, app);
    }
  }

  /** Assignments go with their apps. */
  predicate HaveApps(dir: Directory, current: set<Assignment>) {
    forall a :: a in current && a.kind.ServicePrincipal? ==> IsRegistered(dir, a.principalId)
  }

  /** What the cache remembers of the app behind an assignment has been seen, and, where the cache
      agrees with the tags, is true. */
  lemma CacheTells(dir: Directory, history: seq<Question>, a: Assignment, now: int)
    requires a.principalId in dir.principals && IsFresh(Cached(history), dir.principals[a.principalId], now)
    ensures var managed := Cached(history)[dir.principals[a.principalId]].managed;
            && IsJudged(dir, history, now, a, managed)
            && (AgreedBefore(dir, history) ==> IsTruth(dir, a, managed))
  {
    FreshWasSeen(history, dir.principals[a.principalId], now);
  }

  /** So has what the cache answers when it is asked about that app. */
  lemma AppTells(dir: Directory, before: seq<Question>, history: seq<Question>, a: Assignment, app: App, now: int)
    requires a.principalId in dir.principals && app in dir.apps && app.clientId == dir.principals[a.principalId]
    requires AsksOnly(before, history, dir.apps)
    ensures var q := Question(app.clientId, app.tags, now);
            && IsJudged(dir, history + [q], now, a, Answer(Cached(history), q))
            && (AgreedBefore(dir, before) ==> IsTruth(dir, a, Answer(Cached(history), q)))
  {
    var q := Question(app.clientId, app.tags, now);
    AnswerWasSeen(history, q);
    if AgreedBefore(dir, before) {
      AgreementIsKept(before, history, dir.apps);
      OneAnswerAgrees(Cached(history), q, dir.apps, app);
      forall b | b in dir.apps && b.clientId == app.clientId
        ensures b == app
      {
        SameApp(dir.apps, app, b);
      }
    }
  }

  /** Whether the app behind an assignment is managed: by the cache, or else by its tags. */
  method IsManagedPrincipal(dir: Directory, a: Assignment, cache: Cache) returns (r: Result<bool>)
    requires cache.Valid()
    modifies cache
    ensures cache.Valid() && AsksOnly(old(cache.history), cache.history, dir.apps) && old(cache.now) <= cache.now
    ensures r.Ok? ==> IsJudged(dir, cache.history, old(cache.now), a, r.value)
    ensures r.Ok? && AgreedBefore(dir, old(cache.history)) ==> IsTruth(dir, a, r.value)
    ensures old(cache.failures) <= cache.failures
    ensures r.Err? && HasUniqueClientIds(dir.apps) && IsRegistered(dir, a.principalId) ==> old(cache.failures) < cache.failures
  {
    var called := cache.Call();
    if !called || a.principalId !in dir.principals {
      return Err;
    }
    var clientId := dir.principals[a.principalId];
    var found := cache.Get(clientId);
    if found.Some? {
      CacheTells(dir, cache.history, a, cache.now);
      return Ok(found.value);
    }
    RegisteredIsFound(dir, a.principalId);
    var app :- GetSingle(dir.apps, ByClientId(clientId), cache);
    ghost var history := cache.history;
    var managed := cache.IsManaged(app);
    AppTells(dir, old(cache.history), history, a, app, cache.now);
    return Ok(managed);
  }

  /** What was seen stays seen. */
  lemma JudgedBefore(dir: Directory, before: seq<Question>, after: seq<Question>, later: int, since: int, a: Assignment, managed: bool)
    requires IsJudged(dir, before, later, a, managed) && before <= after && since <= later
    ensures IsJudged(dir, after, since, a, managed)
  {
  }

  /** What is known of some assignments: as was seen of the tags within the last fifteen minutes,
      and, where the cache agreed with the tags, as they are. */
  ghost predicate AreJudged(dir: Directory, before: seq<Question>, history: seq<Question>, since: int,
                            list: seq<Assignment>, managed: set<Assignment>) {
    && (forall a :: a in managed ==> a in list)
    && (forall a :: a in list ==> IsJudged(dir, history, since, a, a in managed))
    && (AgreedBefore(dir, before) ==> forall a :: a in list ==> IsTruth(dir, a, a in managed))
  }

  lemma JudgedOneMore(dir: Directory, before: seq<Question>, history: seq<Question>, after: seq<Question>, since: int, now: int,
                      list: seq<Assignment>, a: Assignment, managed: set<Assignment>, isManaged: bool)
    requires AreJudged(dir, before, history, since, list, managed) && a !in list
    requires history <= after && since <= now && IsJudged(dir, after, now, a, isManaged)
    requires AgreedBefore(dir, before) ==> IsTruth(dir, a, isManaged)
    ensures AreJudged(dir, before, after, since, list + [a], if isManaged then managed + {a} else managed)
  {
    var managed' := if isManaged then managed + {a} else managed;
    forall b | b in list + [a]
      ensures IsJudged(dir, after, since, b, b in managed')
    {
      if b == a {
        JudgedBefore(dir, after, after, now, since, a, isManaged);
      } else {
        JudgedBefore(dir, history, after, since, since, b, b in managed);
      }
    }
  }

  /** The assignments of managed apps. */
  method FilterManaged(list: seq<Assignment>, dir: Directory, cache: Cache)
    returns (r: Result<seq<Assignment>>, ghost managed: set<Assignment>)
    requires cache.Valid() && HasNoRepeats(list)
    modifies cache
    ensures cache.Valid() && AsksOnly(old(cache.history), cache.history, dir.apps) && old(cache.now) <= cache.now
    ensures r.Ok? ==> forall a :: a in r.value <==> a in list && a in managed
    ensures r.Ok? ==> AreJudged(dir, old(cache.history), cache.history, old(cache.now), list, managed)
    ensures old(cache.failures) <= cache.failures
    ensures r.Err? && HasUniqueClientIds(dir.apps) && (forall a :: a in list ==> IsRegistered(dir, a.principalId)) ==>
              old(cache.failures) < cache.failures
  {
    ghost var before, since := cache.history, cache.now;
    var filtered := [];
    managed := {};
    for i := 0 to |list|
      invariant cache.Valid() && AsksOnly(before, cache.history, dir.apps) && since <= cache.now
      invariant old(cache.failures) <= cache.failures
      invariant forall a :: a in filtered <==> a in managed
      invariant AreJudged(dir, before, cache.history, since, list[..i], managed)
    {
      ghost var history, now := cache.history, cache.now;
      if AgreedBefore(dir, before) {
        AgreementIsKept(before, history, dir.apps);
      }
      var judged := IsManagedPrincipal(dir, list[i], cache);
      if judged.Err? {
        return Err, managed;
      }
      assert list[..i + 1] == list[..i] + [list[i]] && list[i] !in list[..i];
      JudgedOneMore(dir, before, history, cache.history, since, now, list[..i], list[i], managed, judged.value);
      if judged.value {
        filtered := filtered + [list[i]];
        managed := managed + {list[i]};
      }
    }
    assert list[..|list|] == list;
    r := Ok(filtered);
  }

  /** Which assignments are of managed apps: as was seen of their tags within the last fifteen
      minutes, and, where the cache agreed with the tags, as they are. */
  ghost predicate AreManaged(dir: Directory, before: seq<Question>, history: seq<Question>, since: int,
                             current: set<Assignment>, managed: set<Assignment>) {
    && (forall a :: a in current && a.kind.ServicePrincipal? ==> IsJudged(dir, history, since, a, a in managed))
    && (AgreedBefore(dir, before) ==> forall a :: a in current && a.kind.ServicePrincipal? ==> IsTruth(dir, a, a in managed))
  }

  /** Seen later, and so seen since earlier. */
  lemma ManagedBefore(dir: Directory, before: seq<Question>, middle: seq<Question>, history: seq<Question>, after: seq<Question>,
                      later: int, since: int, current: set<Assignment>, managed: set<Assignment>)
    requires AreManaged(dir, middle, history, later, current, managed)
    requires AsksOnly(before, middle, dir.apps) && history <= after && since <= later
    ensures AreManaged(dir, before, after, since, current, managed)
  {
    forall a | a in current && a.kind.ServicePrincipal?
      ensures IsJudged(dir, after, since, a, a in managed)
    {
      JudgedBefore(dir, history, after, later, since, a, a in managed);
    }
    if AgreedBefore(dir, before) {
      AgreementIsKept(before, middle, dir.apps);
    }
  }

  method GetAllServicePrincipals(d: Remote, dir: Directory, cache: Cache)
    returns (r: Result<seq<Assignment>>, ghost managed: set<Assignment>)
    requires d.Valid() && cache.Valid()
    modifies cache, d`failures
    ensures d.Valid() && cache.Valid() && AsksOnly(old(cache.history), cache.history, dir.apps) && old(cache.now) <= cache.now
    ensures old(cache.failures) <= cache.failures && old(d.failures) <= d.failures
    ensures r.Ok? ==> AreExisting(r.value, d.current, ServicePrincipal, managed)
    ensures r.Err? && HasUniqueClientIds(dir.apps) && HaveApps(dir, d.current) ==>
              old(cache.failures) < cache.failures || old(d.failures) < d.failures
    ensures r.Ok? ==> AreManaged(dir, old(cache.history), cache.history, old(cache.now), d.current, managed)
  {
    managed := {};
    var all := d.GetAll();
    if all.Err? {
      return Err, managed;
    }
    var list := FilterByType(all.value, ServicePrincipal);
    r, managed := FilterManaged(list, dir, cache);
  }

  method GetAllGroups(d: Remote) returns (r: Result<seq<Assignment>>)
    requires d.Valid()
    modifies d`failures
    ensures d.Valid() && d.failures == if r.Ok? then old(d.failures) else old(d.failures) + 1
    ensures r.Ok? ==> AreExisting(r.value, d.current, Group, {})
  {
    var all :- d.GetAll();
    var groups := FilterByType(all, Group);
    return Ok(groups);
  }

  // ------------------------------------------------------------ processing

  predicate EnabledDone(existing: seq<Assignment>, current: set<Assignment>, desired: set<Key>, roles: PermissionMap, names: set<string>) {
    forall n :: n in names && n in roles ==> RoleDone(existing, current, desired, roles[n].id)
  }

  lemma EnabledStayDone(existing: seq<Assignment>, from: set<Assignment>, until: set<Assignment>, desired: set<Key>,
                        roles: PermissionMap, names: set<string>)
    requires EnabledDone(existing, from, desired, roles, names) && OnlyHelps(from, until, desired)
    ensures EnabledDone(existing, until, desired, roles, names)
  {
  }

  /** None of these roles calls for a change. */
  predicate AreExact(existing: seq<Assignment>, desired: set<Key>, roles: PermissionMap, names: set<string>) {
    forall n :: n in names && n in roles ==> RoleIsExact(existing, desired, roles[n].id)
  }

  predicate NoneOverlookedAmong(existing: seq<Assignment>, current: set<Assignment>, desired: set<Key>,
                                roles: PermissionMap, names: set<string>) {
    forall n :: n in names && n in roles ==> NoneOverlooked(existing, current, desired, roles[n].id)
  }

  /** What is desired stays, so that it is overlooked later if it was before. */
  lemma OverlookedBefore(existing: seq<Assignment>, from: set<Assignment>, until: set<Assignment>, desired: set<Key>, roleId: string)
    requires OnlyHelps(from, until, desired) && NoneOverlooked(existing, until, desired, roleId)
    ensures NoneOverlooked(existing, from, desired, roleId)
  {
  }

  function EnabledNames(roles: PermissionMap): set<string> {
    set n | n in roles && roles[n].enabled
  }

  /** What has been added has one of these roles. */
  predicate AddedInRoles(from: set<Assignment>, until: set<Assignment>, roles: PermissionMap, names: set<string>) {
    forall a :: a in until && a !in from ==> exists n :: n in names && n in roles && roles[n].id == a.roleId
  }

  /** Where the loop over the enabled roles stands. */
  ghost predicate HaveProcessed(existing: seq<Assignment>, from: set<Assignment>, until: set<Assignment>, desired: set<Key>,
                                roles: PermissionMap, names: set<string>) {
    && OnlyHelps(from, until, desired)
    && EnabledDone(existing, until, desired, roles, names)
    && NoneOverlookedAmong(existing, from, desired, roles, names)
    && AddedInRoles(from, until, roles, names)
  }

  lemma ProcessedOneMore(existing: seq<Assignment>, from: set<Assignment>, middle: set<Assignment>, until: set<Assignment>,
                         desired: set<Key>, roles: PermissionMap, names: set<string>, n: string)
    requires HaveProcessed(existing, from, middle, desired, roles, names) && n in roles
    requires OnlyHelps(middle, until, desired) && RoleDone(existing, until, desired, roles[n].id)
    requires NoneOverlooked(existing, middle, desired, roles[n].id)
    requires forall a :: a in until && a !in middle ==> a.roleId == roles[n].id
    ensures HaveProcessed(existing, from, until, desired, roles, names + {n})
  {
    EnabledStayDone(existing, middle, until, desired, roles, names);
    OverlookedBefore(existing, from, middle, desired, roles[n].id);
  }

  lemma ExactOneMore(existing: seq<Assignment>, desired: set<Key>, roles: PermissionMap, names: set<string>, n: string)
    requires n in roles
    ensures AreExact(existing, desired, roles, names + {n}) <==>
            AreExact(existing, desired, roles, names) && RoleIsExact(existing, desired, roles[n].id)
  {
  }

  /** What is overlooked in one role was so before any other role was processed. */
  lemma OverlookedAtStart(existing: seq<Assignment>, from: set<Assignment>, until: set<Assignment>, desired: set<Key>,
                          roles: PermissionMap, names: set<string>, n: string)
    requires DistinctIds(roles) && AddedInRoles(from, until, roles, names) && n in roles && n !in names
    ensures NoneOverlooked(existing, from, desired, roles[n].id) ==> NoneOverlooked(existing, until, desired, roles[n].id)
  {
  }

  /** The roles come in any order. */
  method ProcessEnabledRoles(d: Remote, existing: seq<Assignment>, roles: PermissionMap, assignees: seq<Resource>,
                             kind: PrincipalType, target: string,
                             ghost before: set<Assignment>, ghost managed: set<Assignment>)
    returns (ok: bool)
    requires d.Valid() && DistinctIds(roles)
    requires forall r :: r in assignees ==> r.kind == kind
    requires AreExisting(existing, before, kind, managed)
    requires IsSafe(before, d.current, DesiredKeys(assignees, kind, roles, target), kind, managed)
    modifies d
    ensures d.Valid() && IsSafe(before, d.current, DesiredKeys(assignees, kind, roles, target), kind, managed)
    ensures ok ==> EnabledDone(existing, d.current, DesiredKeys(assignees, kind, roles, target), roles, EnabledNames(roles))
    ensures ok ==> NoneOverlookedAmong(existing, old(d.current), DesiredKeys(assignees, kind, roles, target), roles, EnabledNames(roles))
    ensures old(d.calls) <= d.calls && (!ok ==> old(d.calls) < d.calls)
    ensures d.calls == old(d.calls) <==> AreExact(existing, DesiredKeys(assignees, kind, roles, target), roles, EnabledNames(roles))
    ensures d.calls == old(d.calls) ==> d.current == old(d.current)
    ensures old(d.failures) <= d.failures && (ok ==> d.failures == old(d.failures))
    ensures !ok && d.failures == old(d.failures) && HasDistinctObjectIds(assignees) ==>
              !NoneOverlookedAmong(existing, old(d.current), DesiredKeys(assignees, kind, roles, target), roles, EnabledNames(roles))
  {
    ghost var desired := DesiredKeys(assignees, kind, roles, target);
    var rest := set n | n in roles && roles[n].enabled;
    while rest != {}
      invariant rest <= EnabledNames(roles)
      invariant d.Valid() && IsSafe(before, d.current, desired, kind, managed)
      invariant HaveProcessed(existing, old(d.current), d.current, desired, roles, EnabledNames(roles) - rest)
      invariant old(d.calls) <= d.calls && d.failures == old(d.failures)
      invariant d.calls == old(d.calls) <==> AreExact(existing, desired, roles, EnabledNames(roles) - rest)
      invariant d.calls == old(d.calls) ==> d.current == old(d.current)
      decreases rest
    {
      var n :| n in rest;
      ghost var from := d.current;
      assert EnabledNames(roles) - (rest - {n}) == (EnabledNames(roles) - rest) + {n};
      ExactOneMore(existing, desired, roles, EnabledNames(roles) - rest, n);
      ok := ProcessRole(d, existing, assignees, kind, roles, n, target, before, managed);
      if !ok {
        OverlookedAtStart(existing, old(d.current), from, desired, roles, EnabledNames(roles) - rest, n);
        return;
      }
      ProcessedOneMore(existing, old(d.current), from, d.current, desired, roles, EnabledNames(roles) - rest, n);
      rest := rest - {n};
    }
    return true;
  }

  /** No existing assignment has one of these roles any more. */
  ghost predicate RolesCleared(existing: seq<Assignment>, current: set<Assignment>, roles: PermissionMap, names: set<string>) {
    forall n, a :: n in names && n in roles && a in existing && a.roleId == roles[n].id ==> a !in current
  }

  /** No existing assignment is to one of these roles. */
  predicate HaveNoRole(existing: seq<Assignment>, roles: PermissionMap, names: set<string>) {
    forall n, a :: n in names && n in roles && a in existing ==> a.roleId != roles[n].id
  }

  lemma NotDesired(list: seq<Assignment>, assignees: seq<Resource>, kind: PrincipalType, roles: PermissionMap, target: string)
    requires forall a :: a in list ==> !exists n :: n in roles && roles[n].enabled && roles[n].id == a.roleId
    ensures forall a :: a in list ==> KeyOf(a) !in DesiredKeys(assignees, kind, roles, target)
  {
  }

  lemma ClearedOneMore(existing: seq<Assignment>, from: set<Assignment>, until: set<Assignment>, roles: PermissionMap,
                       names: set<string>, n: string)
    requires RolesCleared(existing, from, roles, names) && until <= from && n in roles
    requires forall a :: a in existing && a.roleId == roles[n].id ==> a !in until
    ensures RolesCleared(existing, until, roles, names + {n})
  {
  }

  lemma NoRoleOneMore(existing: seq<Assignment>, roles: PermissionMap, names: set<string>, n: string)
    requires n in roles
    ensures HaveNoRole(existing, roles, names + {n}) <==>
            HaveNoRole(existing, roles, names) && forall a :: a in existing ==> a.roleId != roles[n].id
  {
  }

  method RevokeDisabledRoles(d: Remote, existing: seq<Assignment>, roles: PermissionMap, ghost assignees: seq<Resource>,
                             kind: PrincipalType, ghost target: string,
                             ghost before: set<Assignment>, ghost managed: set<Assignment>)
    returns (ok: bool)
    requires d.Valid() && DistinctIds(roles)
    requires AreExisting(existing, before, kind, managed)
    requires IsSafe(before, d.current, DesiredKeys(assignees, kind, roles, target), kind, managed)
    modifies d
    ensures d.Valid() && IsSafe(before, d.current, DesiredKeys(assignees, kind, roles, target), kind, managed)
    ensures OnlyHelps(old(d.current), d.current, DesiredKeys(assignees, kind, roles, target)) && d.current <= old(d.current)
    ensures ok ==> RolesCleared(existing, d.current, roles, roles.Keys - EnabledNames(roles))
    ensures old(d.calls) <= d.calls && (!ok ==> old(d.calls) < d.calls)
    ensures d.calls == old(d.calls) <==> HaveNoRole(existing, roles, roles.Keys - EnabledNames(roles))
    ensures d.calls == old(d.calls) ==> d.current == old(d.current)
    ensures old(d.failures) <= d.failures && (ok <==> d.failures == old(d.failures))
  {
    ghost var desired := DesiredKeys(assignees, kind, roles, target);
    var rest := set n | n in roles && !roles[n].enabled;
    ghost var disabled := rest;
    while rest != {}
      invariant rest <= disabled
      invariant d.Valid() && IsSafe(before, d.current, desired, kind, managed)
      invariant OnlyHelps(old(d.current), d.current, desired) && d.current <= old(d.current)
      invariant RolesCleared(existing, d.current, roles, disabled - rest)
      invariant old(d.calls) <= d.calls && d.failures == old(d.failures)
      invariant d.calls == old(d.calls) <==> HaveNoRole(existing, roles, disabled - rest)
      invariant d.calls == old(d.calls) ==> d.current == old(d.current)
      decreases rest
    {
      var n :| n in rest;
      rest := rest - {n};
      assert disabled - rest == (disabled - rest - {n}) + {n};
      var toRevoke := FilterByRoleId(existing, roles[n].id);
      NotDesired(toRevoke, assignees, kind, roles, target);
      EmptyOrNot(toRevoke);
      NoRoleOneMore(existing, roles, disabled - rest - {n}, n);
      ghost var from := d.current;
      ok := RevokeFor(d, toRevoke, before, desired, kind, managed);
      HelpsOn(old(d.current), from, d.current, desired);
      if !ok {
        return;
      }
      ClearedOneMore(existing, from, d.current, roles, disabled - rest - {n}, n);
    }
    assert roles.Keys - EnabledNames(roles) == disabled;
    return true;
  }

  lemma FilteredDesired(assignees: seq<Resource>, filtered: seq<Resource>, kind: PrincipalType, roles: PermissionMap, target: string)
    requires forall r :: r in filtered <==> r in assignees && r.kind == kind
    ensures DesiredKeys(filtered, kind, roles, target) == DesiredKeys(assignees, kind, roles, target)
  {
  }

  lemma Reached(existing: seq<Assignment>, before: set<Assignment>, after: set<Assignment>, assignees: seq<Resource>,
                kind: PrincipalType, roles: PermissionMap, target: string, managed: set<Assignment>)
    requires AreExisting(existing, before, kind, managed)
    requires IsSafe(before, after, DesiredKeys(assignees, kind, roles, target), kind, managed)
    requires EnabledDone(existing, after, DesiredKeys(assignees, kind, roles, target), roles, EnabledNames(roles))
    requires RolesCleared(existing, after, roles, roles.Keys - EnabledNames(roles))
    requires forall a :: a in existing && !HasRoleId(roles, a.roleId) ==> a !in after
    ensures IsReached(before, after, DesiredKeys(assignees, kind, roles, target), kind, managed)
  {
  }

  /** The keys of what exists are the keys in scope. */
  lemma ExistingKeys(existing: seq<Assignment>, before: set<Assignment>, kind: PrincipalType, managed: set<Assignment>)
    requires AreExisting(existing, before, kind, managed)
    ensures KeysOf(existing) == InScopeKeys(before, kind, managed)
  {
  }

  /** Nothing is to be changed exactly if exactly what is desired exists. */
  lemma NothingToChange(existing: seq<Assignment>, assignees: seq<Resource>, kind: PrincipalType, roles: PermissionMap, target: string)
    requires DistinctIds(roles)
    ensures KeysOf(existing) == DesiredKeys(assignees, kind, roles, target) <==>
            && AreExact(existing, DesiredKeys(assignees, kind, roles, target), roles, EnabledNames(roles))
            && HaveNoRole(existing, roles, roles.Keys - EnabledNames(roles))
            && forall a :: a in existing ==> HasRoleId(roles, a.roleId)
  {
    var desired := DesiredKeys(assignees, kind, roles, target);
    assert forall k :: k in desired ==> exists n :: n in EnabledNames(roles) && roles[n].id == k.roleId;
    if KeysOf(existing) == desired {
      forall a | a in existing
        ensures exists n :: n in EnabledNames(roles) && roles[n].id == a.roleId
      {
        assert KeyOf(a) in desired;
      }
    }
  }

  lemma NoneOverlookedAtAll(existing: seq<Assignment>, before: set<Assignment>, assignees: seq<Resource>, kind: PrincipalType,
                            roles: PermissionMap, target: string)
    requires NoneOverlookedAmong(existing, before, DesiredKeys(assignees, kind, roles, target), roles, EnabledNames(roles))
    ensures AllSeen(before, DesiredKeys(assignees, kind, roles, target), KeysOf(existing))
  {
    forall a | a in before && KeyOf(a) in DesiredKeys(assignees, kind, roles, target)
      ensures KeyOf(a) in KeysOf(existing)
    {
      var n :| n in EnabledNames(roles) && roles[n].id == a.roleId;
      assert NoneOverlooked(existing, before, DesiredKeys(assignees, kind, roles, target), roles[n].id);
    }
  }

  /** Everything that is desired and is there is among the keys that were seen. */
  predicate AllSeen(current: set<Assignment>, desired: set<Key>, seen: set<Key>) {
    forall a :: a in current && KeyOf(a) in desired ==> KeyOf(a) in seen
  }

  /** The app behind a service principal is there, and is tagged as managed. */
  predicate IsOurs(dir: Directory, principalId: string) {
    principalId in dir.principals && exists app :: app in dir.apps && app.clientId == dir.principals[principalId] && IsTagged(app.tags)
  }

  lemma TruthIsOurs(dir: Directory, a: Assignment, managed: bool)
    requires IsTruth(dir, a, managed) && IsRegistered(dir, a.principalId)
    ensures managed <==> IsOurs(dir, a.principalId)
  {
  }

  /** Whoever is assigned as desired is an assignee that wants an enabled role. */
  lemma DesiredIsWanted(assignees: seq<Resource>, kind: PrincipalType, roles: PermissionMap, target: string, k: Key)
    requires k in DesiredKeys(assignees, kind, roles, target)
    ensures exists n, r :: n in roles && roles[n].enabled && r in assignees && r.kind == kind && Wants(r, kind, roles[n]) &&
                           r.objectId == k.principalId
  {
  }

  /** An assignment's type is that of its principal. */
  predicate KindsMatch(current: set<Assignment>, assignees: seq<Resource>, kind: PrincipalType) {
    forall a, r :: a in current && r in assignees && r.kind == kind && a.principalId == r.objectId ==> a.kind == kind
  }

  /** Every desired assignment that is there is of an app that is tagged as managed. */
  predicate AllThereAreOurs(dir: Directory, current: set<Assignment>, desired: set<Key>) {
    forall a :: a in current && KeyOf(a) in desired ==> IsOurs(dir, a.principalId)
  }

  /** Which is to say that all are seen. */
  lemma SeenAreOurs(dir: Directory, current: set<Assignment>, assignees: seq<Resource>, roles: PermissionMap, target: string,
                    managed: set<Assignment>)
    requires HasUniqueKeys(current) && KindsMatch(current, assignees, ServicePrincipal) && HaveApps(dir, current)
    requires forall a :: a in current && a.kind.ServicePrincipal? ==> IsTruth(dir, a, a in managed)
    ensures var desired := DesiredKeys(assignees, ServicePrincipal, roles, target);
            AllSeen(current, desired, InScopeKeys(current, ServicePrincipal, managed)) <==> AllThereAreOurs(dir, current, desired)
  {
    var desired, keys := DesiredKeys(assignees, ServicePrincipal, roles, target), InScopeKeys(current, ServicePrincipal, managed);
    forall a | a in current && KeyOf(a) in desired
      ensures KeyOf(a) in keys <==> IsOurs(dir, a.principalId)
    {
      DesiredIsWanted(assignees, ServicePrincipal, roles, target, KeyOf(a));
      TruthIsOurs(dir, a, a in managed);
      assert KeyOf(a) in keys <==> a in managed;
    }
  }

  /** Everything but the reading of what exists. */
  method ProcessExisting(d: Remote, existing: seq<Assignment>, assignees: seq<Resource>, kind: PrincipalType, roles: PermissionMap,
                         target: string, ghost managed: set<Assignment>)
    returns (ok: bool)
    requires d.Valid() && DistinctIds(roles) && AreExisting(existing, d.current, kind, managed)
    modifies d
    ensures d.Valid() && IsSafe(old(d.current), d.current, DesiredKeys(assignees, kind, roles, target), kind, managed)
    ensures ok ==> IsReached(old(d.current), d.current, DesiredKeys(assignees, kind, roles, target), kind, managed)
    ensures ok ==> AllSeen(old(d.current), DesiredKeys(assignees, kind, roles, target), InScopeKeys(old(d.current), kind, managed))
    ensures old(d.calls) <= d.calls && (!ok ==> old(d.calls) < d.calls)
    ensures d.calls == old(d.calls) <==> InScopeKeys(old(d.current), kind, managed) == DesiredKeys(assignees, kind, roles, target)
    ensures d.calls == old(d.calls) ==> d.current == old(d.current)
    ensures old(d.failures) <= d.failures && (ok ==> d.failures == old(d.failures))
    ensures d.failures == old(d.failures) && HasDistinctObjectIds(assignees) ==>
              (ok <==> AllSeen(old(d.current), DesiredKeys(assignees, kind, roles, target), InScopeKeys(old(d.current), kind, managed)))
  {
    ghost var before, desired := d.current, DesiredKeys(assignees, kind, roles, target);
    ExistingKeys(existing, before, kind, managed);
    NothingToChange(existing, assignees, kind, roles, target);
    var filtered := FilterByPrincipalType(assignees, kind);
    FilteredDesired(assignees, filtered, kind, roles, target);
    ok := ProcessEnabledRoles(d, existing, roles, filtered, kind, target, before, managed);
    if !ok {
      return;
    }
    ghost var enabledDone := d.current;
    ok := RevokeDisabledRoles(d, existing, roles, assignees, kind, target, before, managed);
    if !ok {
      return;
    }
    ghost var disabledDone := d.current;
    var toRevoke := WithoutMatchingRole(existing, roles);
    NotDesired(toRevoke, assignees, kind, roles, target);
    EmptyOrNot(toRevoke);
    ok := RevokeFor(d, toRevoke, before, desired, kind, managed);
    if ok {
      EnabledStayDone(existing, enabledDone, disabledDone, desired, roles, EnabledNames(roles));
      EnabledStayDone(existing, disabledDone, d.current, desired, roles, EnabledNames(roles));
      Reached(existing, before, d.current, assignees, kind, roles, target, managed);
      NoneOverlookedAtAll(existing, before, assignees, kind, roles, target);
    }
  }

  /** All assignments of groups are in scope. */
  lemma GroupsAreSeen(current: set<Assignment>, assignees: seq<Resource>, roles: PermissionMap, target: string)
    requires KindsMatch(current, assignees, Group)
    ensures AllSeen(current, DesiredKeys(assignees, Group, roles, target), InScopeKeys(current, Group, {}))
  {
  }

  /** Every group has the default role for groups, and those of its rule, as far as they are enabled. */
  ghost predicate GroupsAreAssigned(current: set<Assignment>, assignees: seq<Resource>, roles: PermissionMap, target: string) {
    forall n, r :: n in roles && roles[n].enabled && r in assignees && r.kind.Group? &&
                   (roles[n].id == "00000000-0000-0000-0000-000000000000" || (r.grants.Some? && n in r.grants.value.roles)) ==>
      HasKey(current, Key(roles[n].id, r.objectId, target))
  }

  lemma ReachedGroups(before: set<Assignment>, after: set<Assignment>, assignees: seq<Resource>, roles: PermissionMap, target: string)
    requires DistinctIds(roles) && IsReached(before, after, DesiredKeys(assignees, Group, roles, target), Group, {})
    ensures GroupsAreAssigned(after, assignees, roles, target)
  {
    forall n, r | n in roles && roles[n].enabled && r in assignees && r.kind.Group? &&
                  (roles[n].id == "00000000-0000-0000-0000-000000000000" || (r.grants.Some? && n in r.grants.value.roles))
      ensures Key(roles[n].id, r.objectId, target) in DesiredKeys(assignees, Group, roles, target)
    {
      assert Wants(r, Group, roles[n]);
    }
  }

  method ProcessForGroups(d: Remote, assignees: seq<Resource>, roles: PermissionMap, target: string) returns (ok: bool)
    requires d.Valid() && DistinctIds(roles)
    modifies d
    ensures d.Valid() && IsSafe(old(d.current), d.current, DesiredKeys(assignees, Group, roles, target), Group, {})
    ensures ok ==> IsReached(old(d.current), d.current, DesiredKeys(assignees, Group, roles, target), Group, {})
    ensures forall a :: a in old(d.current) && !a.kind.Group? ==> a in d.current
    ensures forall a :: a in d.current && a !in old(d.current) ==> a.kind.Group? && a.resourceId == target
    ensures ok ==> GroupsAreAssigned(d.current, assignees, roles, target)
    ensures ok ==> (d.calls == old(d.calls) <==> InScopeKeys(old(d.current), Group, {}) == DesiredKeys(assignees, Group, roles, target))
    ensures d.calls == old(d.calls) ==> d.current == old(d.current)
    ensures old(d.failures) <= d.failures
    ensures d.failures == old(d.failures) && HasDistinctObjectIds(assignees) && KindsMatch(old(d.current), assignees, Group) ==> ok
  {
    var existing := GetAllGroups(d);
    if existing.Err? {
      return false;
    }
    ok := ProcessExisting(d, existing.value, assignees, Group, roles, target, {});
    if ok {
      ReachedGroups(old(d.current), d.current, assignees, roles, target);
    }
    if KindsMatch(old(d.current), assignees, Group) {
      GroupsAreSeen(old(d.current), assignees, roles, target);
    }
  }

  /** What a run for service principals does, complete or not, with `managed` the assignments
      of managed apps among those that there were. */
  ghost predicate IsProcessed(dir: Directory, before: seq<Question>, history: seq<Question>, since: int,
                              from: set<Assignment>, until: set<Assignment>, desired: set<Key>, managed: set<Assignment>, ok: bool) {
    && AreManaged(dir, before, history, since, from, managed)
    && IsSafe(from, until, desired, ServicePrincipal, managed)
    && (ok ==> IsReached(from, until, desired, ServicePrincipal, managed))
  }

  lemma ProcessedBefore(dir: Directory, before: seq<Question>, middle: seq<Question>, history: seq<Question>, after: seq<Question>,
                        later: int, since: int, from: set<Assignment>, until: set<Assignment>, desired: set<Key>,
                        managed: set<Assignment>, ok: bool)
    requires IsProcessed(dir, middle, history, later, from, until, desired, managed, ok)
    requires AsksOnly(before, middle, dir.apps) && history <= after && since <= later
    ensures IsProcessed(dir, before, after, since, from, until, desired, managed, ok)
  {
    ManagedBefore(dir, before, middle, history, after, later, since, from, managed);
  }

  method ProcessForServicePrincipals(d: Remote, dir: Directory, cache: Cache, assignees: seq<Resource>, roles: PermissionMap,
                                     target: string)
    returns (ok: bool, ghost managed: set<Assignment>)
    requires d.Valid() && cache.Valid() && DistinctIds(roles)
    modifies d, cache
    ensures d.Valid() && cache.Valid() && AsksOnly(old(cache.history), cache.history, dir.apps) && old(cache.now) <= cache.now
    ensures ok || d.current != old(d.current) ==>
              IsProcessed(dir, old(cache.history), cache.history, old(cache.now), old(d.current), d.current,
                          DesiredKeys(assignees, ServicePrincipal, roles, target), managed, ok)
    ensures forall a :: a in old(d.current) && !a.kind.ServicePrincipal? ==> a in d.current
    ensures forall a :: a in d.current && a !in old(d.current) ==> a.kind.ServicePrincipal? && a.resourceId == target
    ensures ok ==> AllSeen(old(d.current), DesiredKeys(assignees, ServicePrincipal, roles, target),
                           InScopeKeys(old(d.current), ServicePrincipal, managed))
    ensures ok ==> (d.calls == old(d.calls) <==>
                    InScopeKeys(old(d.current), ServicePrincipal, managed) == DesiredKeys(assignees, ServicePrincipal, roles, target))
    ensures d.calls != old(d.calls) ==>
              && AreManaged(dir, old(cache.history), cache.history, old(cache.now), old(d.current), managed)
              && InScopeKeys(old(d.current), ServicePrincipal, managed) != DesiredKeys(assignees, ServicePrincipal, roles, target)
    ensures d.calls == old(d.calls) ==> d.current == old(d.current)
    ensures old(d.failures) <= d.failures && old(cache.failures) <= cache.failures
    ensures d.failures == old(d.failures) && cache.failures == old(cache.failures) && HasDistinctObjectIds(assignees) &&
            HasUniqueClientIds(dir.apps) && HaveApps(dir, old(d.current)) ==>
              && AreManaged(dir, old(cache.history), cache.history, old(cache.now), old(d.current), managed)
              && (ok <==> AllSeen(old(d.current), DesiredKeys(assignees, ServicePrincipal, roles, target),
                                  InScopeKeys(old(d.current), ServicePrincipal, managed)))
  {
    var existing;
    existing, managed := GetAllServicePrincipals(d, dir, cache);
    if existing.Err? {
      return false, managed;
    }
    ok := ProcessExisting(d, existing.value, assignees, ServicePrincipal, roles, target, managed);
  }

  // ------------------------------------------------------- running it again

  /** After a complete run, the next one has nothing to do for groups, and for apps that are
      all managed. */
  lemma ManagedIsFixed(before: set<Assignment>, after: set<Assignment>, assignees: seq<Resource>, kind: PrincipalType,
                       roles: PermissionMap, target: string, managed: set<Assignment>, managedThen: set<Assignment>)
    requires IsReached(before, after, DesiredKeys(assignees, kind, roles, target), kind, managed)
    requires KindsMatch(after, assignees, kind)
    requires forall a :: a in after && a in before && a.kind == kind ==> (a in managed <==> a in managedThen)
    requires kind.ServicePrincipal? ==>
               forall a :: a in after && KeyOf(a) in DesiredKeys(assignees, kind, roles, target) ==> a in managedThen
    ensures InScopeKeys(after, kind, managedThen) == DesiredKeys(assignees, kind, roles, target)
  {
  }

  predicate AreRegistered(dir: Directory, assignees: seq<Resource>) {
    forall r :: r in assignees ==> IsRegistered(dir, r.objectId)
  }

  /** Everyone who is to have an enabled role is managed. */
  predicate AllWantersAreOurs(dir: Directory, assignees: seq<Resource>, roles: PermissionMap) {
    forall n, r :: n in roles && roles[n].enabled && r in assignees && r.kind.ServicePrincipal? && Wants(r, ServicePrincipal, roles[n]) ==>
                   IsOurs(dir, r.objectId)
  }

  lemma AppsStayThere(dir: Directory, before: set<Assignment>, after: set<Assignment>, assignees: seq<Resource>,
                      roles: PermissionMap, target: string, managed: set<Assignment>)
    requires IsReached(before, after, DesiredKeys(assignees, ServicePrincipal, roles, target), ServicePrincipal, managed)
    requires HaveApps(dir, before) && AreRegistered(dir, assignees)
    ensures HaveApps(dir, after)
  {
    forall a | a in after && a.kind.ServicePrincipal? && a !in before
      ensures IsRegistered(dir, a.principalId)
    {
      DesiredIsWanted(assignees, ServicePrincipal, roles, target, KeyOf(a));
    }
  }

  /** A desired assignment is in scope then if and only if its assignee is ours. */
  lemma DesiredInScope(dir: Directory, after: set<Assignment>, assignees: seq<Resource>, roles: PermissionMap, target: string,
                       managedThen: set<Assignment>, k: Key)
    requires HasUniqueKeys(after) && KindsMatch(after, assignees, ServicePrincipal) && AreRegistered(dir, assignees)
    requires k in DesiredKeys(assignees, ServicePrincipal, roles, target) && HasKey(after, k)
    requires forall a :: a in after && a.kind.ServicePrincipal? ==> IsTruth(dir, a, a in managedThen)
    ensures k in InScopeKeys(after, ServicePrincipal, managedThen) <==> IsOurs(dir, k.principalId)
  {
    DesiredIsWanted(assignees, ServicePrincipal, roles, target, k);
    var a :| a in after && KeyOf(a) == k;
    TruthIsOurs(dir, a, a in managedThen);
    assert k in InScopeKeys(after, ServicePrincipal, managedThen) <==> InScope(a, ServicePrincipal, managedThen);
  }

  lemma AllDesiredInScope(dir: Directory, after: set<Assignment>, assignees: seq<Resource>, roles: PermissionMap, target: string,
                          managedThen: set<Assignment>)
    requires HasUniqueKeys(after) && KindsMatch(after, assignees, ServicePrincipal) && AreRegistered(dir, assignees)
    requires forall k :: k in DesiredKeys(assignees, ServicePrincipal, roles, target) ==> HasKey(after, k)
    requires forall a :: a in after && a.kind.ServicePrincipal? ==> IsTruth(dir, a, a in managedThen)
    ensures DesiredKeys(assignees, ServicePrincipal, roles, target) <= InScopeKeys(after, ServicePrincipal, managedThen) <==>
            AllWantersAreOurs(dir, assignees, roles)
  {
    var desired, keys := DesiredKeys(assignees, ServicePrincipal, roles, target), InScopeKeys(after, ServicePrincipal, managedThen);
    forall k | k in desired
      ensures k in keys <==> IsOurs(dir, k.principalId)
      ensures AllWantersAreOurs(dir, assignees, roles) ==> IsOurs(dir, k.principalId)
    {
      DesiredInScope(dir, after, assignees, roles, target, managedThen, k);
      DesiredIsWanted(assignees, ServicePrincipal, roles, target, k);
    }
    forall n, r | n in roles && roles[n].enabled && r in assignees && r.kind.ServicePrincipal? && Wants(r, ServicePrincipal, roles[n])
      ensures desired <= keys ==> IsOurs(dir, r.objectId)
    {
      assert Key(roles[n].id, r.objectId, target) in desired;
    }
  }

  lemma NothingElseInScope(dir: Directory, before: set<Assignment>, after: set<Assignment>, desired: set<Key>,
                           managed: set<Assignment>, managedThen: set<Assignment>)
    requires IsReached(before, after, desired, ServicePrincipal, managed) && HaveApps(dir, before)
    requires forall a :: a in before && a.kind.ServicePrincipal? ==> IsTruth(dir, a, a in managed)
    requires forall a :: a in after && a.kind.ServicePrincipal? ==> IsTruth(dir, a, a in managedThen)
    ensures InScopeKeys(after, ServicePrincipal, managedThen) <= desired
  {
    forall a | a in after && InScope(a, ServicePrincipal, managedThen)
      ensures KeyOf(a) in desired
    {
      if a in before {
        TruthIsOurs(dir, a, a in managed);
        TruthIsOurs(dir, a, a in managedThen);
      }
    }
  }

  /** After a complete run, with the tags known, the next one finds nothing to do, and finds
      everything that is there, exactly if everyone who wants an enabled role is managed. */
  lemma SecondPlanIsEmpty(dir: Directory, before: set<Assignment>, after: set<Assignment>, assignees: seq<Resource>,
                          roles: PermissionMap, target: string, managed: set<Assignment>, managedThen: set<Assignment>)
    requires IsReached(before, after, DesiredKeys(assignees, ServicePrincipal, roles, target), ServicePrincipal, managed)
    requires HasUniqueKeys(after) && KindsMatch(after, assignees, ServicePrincipal)
    requires HaveApps(dir, before) && AreRegistered(dir, assignees)
    requires forall a :: a in before && a.kind.ServicePrincipal? ==> IsTruth(dir, a, a in managed)
    requires forall a :: a in after && a.kind.ServicePrincipal? ==> IsTruth(dir, a, a in managedThen)
    ensures InScopeKeys(after, ServicePrincipal, managedThen) == DesiredKeys(assignees, ServicePrincipal, roles, target) <==>
            AllWantersAreOurs(dir, assignees, roles)
    ensures AllSeen(after, DesiredKeys(assignees, ServicePrincipal, roles, target), InScopeKeys(after, ServicePrincipal, managedThen)) <==>
            AllWantersAreOurs(dir, assignees, roles)
  {
    var desired, keys := DesiredKeys(assignees, ServicePrincipal, roles, target), InScopeKeys(after, ServicePrincipal, managedThen);
    AllDesiredInScope(dir, after, assignees, roles, target, managedThen);
    NothingElseInScope(dir, before, after, desired, managed, managedThen);
    if AllSeen(after, desired, keys) {
      forall k | k in desired
        ensures k in keys
      {
        var a :| a in after && KeyOf(a) == k;
      }
    }
  }

  /** Two runs, where the cache agrees with the tags. If everyone who wants an enabled role is
      managed, the second makes no call. Otherwise it cannot succeed: an assignment that it does
      not see is added anew, which the directory refuses. */
  method ProcessTwice(d: Remote, dir: Directory, cache: Cache, assignees: seq<Resource>, roles: PermissionMap, target: string)
    returns (first: bool, second: bool, ghost between: nat)
    requires d.Valid() && cache.Valid() && DistinctIds(roles) && AgreedBefore(dir, cache.history)
    requires HaveApps(dir, d.current) && AreRegistered(dir, assignees) && KindsMatch(d.current, assignees, ServicePrincipal)
    modifies d, cache
    ensures first && AllWantersAreOurs(dir, assignees, roles) ==> d.calls == between
    ensures first && !AllWantersAreOurs(dir, assignees, roles) ==> !second
    ensures first && d.calls != between ==> !AllWantersAreOurs(dir, assignees, roles)
    ensures first && HasDistinctObjectIds(assignees) && d.failures == old(d.failures) && cache.failures == old(cache.failures) ==>
              (second <==> AllWantersAreOurs(dir, assignees, roles))
  {
    ghost var before, managed, managedThen := d.current, {}, {};
    first, managed := ProcessForServicePrincipals(d, dir, cache, assignees, roles, target);
    between := d.calls;
    if !first {
      return first, false, between;
    }
    ghost var after := d.current;
    AppsStayThere(dir, before, after, assignees, roles, target, managed);
    AgreementIsKept(old(cache.history), cache.history, dir.apps);
    second, managedThen := ProcessForServicePrincipals(d, dir, cache, assignees, roles, target);
    ghost var noneFailed := d.failures == old(d.failures) && cache.failures == old(cache.failures);
    if second || d.calls != between || (HasDistinctObjectIds(assignees) && noneFailed) {
      SecondPlanIsEmpty(dir, before, after, assignees, roles, target, managed, managedThen);
    }
  }
}
