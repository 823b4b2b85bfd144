/** Permissions, which an app exposes both as roles and as scopes: what is desired, what
    exists, and how the lists of an existing app are brought from the one to the other. */
module Permissions {

  import opened Wrappers

  const DEFAULT_SCOPE_NAME := "defaultaccess"
  const DEFAULT_SCOPE_ID := "00000000-1337-d34d-b33f-000000000000"
  const DEFAULT_ROLE_NAME := "access_as_application"
  const DEFAULT_ROLE_ID := "00000001-abcd-9001-0000-000000000000"

  const SCOPE_TYPE := "Admin"
  const ROLE_MEMBER_TYPE := "Application"

  datatype Permission = Permission(name: string, id: string, enabled: bool)

  type PermissionMap = map<string, Permission>

  /** A role, or a scope; the kind is the role's member type or the scope's consent type. */
  datatype Entry = Entry(id: string, value: string, description: string, kind: string, enabled: bool)

  type EntryMap = map<string, Entry>

  /** The two lists of an app. Each has a name and an ID that are reserved for its default entry. */
  datatype Side = Roles | Scopes

  function ReservedName(side: Side): string {
    if side.Roles? then DEFAULT_ROLE_NAME else DEFAULT_SCOPE_NAME
  }

  function ReservedId(side: Side): string {
    if side.Roles? then DEFAULT_ROLE_ID else DEFAULT_SCOPE_ID
  }

  function Kind(side: Side): string {
    if side.Roles? then ROLE_MEMBER_TYPE else SCOPE_TYPE
  }

  function NewEntry(side: Side, id: string, name: string): Entry {
    Entry(id, name, name, Kind(side), true)
  }

  function DefaultEntry(side: Side): Entry {
    NewEntry(side, ReservedId(side), ReservedName(side))
  }

  function DefaultPermission(side: Side): Permission {
    Permission(ReservedName(side), ReservedId(side), true)
  }

  function FromEntry(e: Entry): Permission {
    Permission(e.value, e.id, e.enabled)
  }

  /** A rule for an app that may call this one, with the scopes and roles that it may use. */
  datatype Grants = Grants(scopes: seq<string>, roles: seq<string>)

  function Flattened(rules: seq<Option<Grants>>, side: Side): seq<string> {
    if rules == [] then
      []
    else
      (if rules[0].None? then [] else if side.Roles? then rules[0].value.roles else rules[0].value.scopes)
      + Flattened(rules[1..], side)
  }

  /** The names that the rules ask for. */
  function Requested(rules: seq<Option<Grants>>): set<string> {
    set n | n in Flattened(rules, Scopes) + Flattened(rules, Roles)
  }

  /** Some rule names it, as a scope or as a role. */
  predicate IsGranted(rules: seq<Option<Grants>>, n: string) {
    exists g :: g in rules && g.Some? && (n in g.value.scopes || n in g.value.roles)
  }

  lemma {:induction false} FlattenedExactly(rules: seq<Option<Grants>>, side: Side)
    ensures forall n :: n in Flattened(rules, side) <==>
                        exists g :: g in rules && g.Some? && n in if side == Roles then g.value.roles else g.value.scopes
  {
    if rules != [] {
      FlattenedExactly(rules[1..], side);
      assert rules == [rules[0]] + rules[1..];
    }
  }

  lemma RequestedExactly(rules: seq<Option<Grants>>)
    ensures forall n :: n in Requested(rules) <==> IsGranted(rules, n)
  {
    FlattenedExactly(rules, Scopes);
    FlattenedExactly(rules, Roles);
  }

  // -------------------------------------------------------- desired set

  /** Adding keeps what is there already under the same name. */
  function Added(m: PermissionMap, p: Permission): PermissionMap {
    if p.name in m then m else m[p.name := p]
  }

  /** The desired permissions, with `newId` as the generated IDs. */
  function Desired(requested: set<string>, newId: string -> string): PermissionMap {
    Added(Added(map n | n in requested :: Permission(n, newId(n), true), DefaultPermission(Roles)), DefaultPermission(Scopes))
  }

  function Names(requested: set<string>): set<string> {
    requested + {DEFAULT_ROLE_NAME, DEFAULT_SCOPE_NAME}
  }

  predicate KeyedByName(m: EntryMap) {
    forall n :: n in m ==> m[n].value == n
  }

  function WithEntry(m: EntryMap, e: Entry): EntryMap {
    if e.value in m then m else m[e.value := e]
  }

  /** The entries of a list by name, the first of each name. */
  function ToMap(entries: seq<Entry>): (m: EntryMap)
    ensures KeyedByName(m)
  {
    if entries == [] then
      map[]
    else
      var rest := ToMap(entries[..|entries| - 1]);
      WithEntry(rest, entries[|entries| - 1])
  }

  /** The permissions of both lists; a scope goes before a role of the same name. */
  function Extracted(scopes: EntryMap, roles: EntryMap): PermissionMap {
    map n | n in scopes.Keys + roles.Keys :: FromEntry(if n in scopes then scopes[n] else roles[n])
  }

  function Preserving(desired: PermissionMap, actual: PermissionMap): PermissionMap {
    map n | n in desired :: if n in actual then actual[n] else desired[n]
  }

  lemma DesiredExactly(rules: seq<Option<Grants>>, newId: string -> string)
    ensures forall n :: n in Desired(Requested(rules), newId) <==>
                        IsGranted(rules, n) || n == "access_as_application" || n == "defaultaccess"
    ensures forall n :: n in Desired(Requested(rules), newId) ==>
              Desired(Requested(rules), newId)[n].name == n && Desired(Requested(rules), newId)[n].enabled
  {
    RequestedExactly(rules);
  }

  function Named(names: seq<string>, newId: string -> string): PermissionMap {
    map n | n in names :: Permission(n, newId(n), true)
  }

  lemma OneMoreNamed(names: seq<string>, name: string, newId: string -> string)
    ensures Added(Named(names, newId), Permission(name, newId(name), true)) == Named(names + [name], newId)
  {
  }

  method GenerateDesiredPermissionSet(rules: seq<Option<Grants>>, newId: string -> string) returns (r: PermissionMap)
    ensures r == Desired(Requested(rules), newId)
    ensures forall n :: n in r <==> IsGranted(rules, n) || n == "access_as_application" || n == "defaultaccess"
    ensures forall n :: n in r ==> r[n].name == n && r[n].enabled
  {
    var names := Flattened(rules, Scopes) + Flattened(rules, Roles);
    r := map[];
    for i := 0 to |names|
      invariant r == Named(names[..i], newId)
    {
      OneMoreNamed(names[..i], names[i], newId);
      assert names[..i + 1] == names[..i] + [names[i]];
      r := Added(r, Permission(names[i], newId(names[i]), true));
    }
    assert names[..|names|] == names;
    r := Added(r, DefaultPermission(Roles));
    r := Added(r, DefaultPermission(Scopes));
    DesiredExactly(rules, newId);
  }

  method ListToMap(entries: seq<Entry>) returns (m: EntryMap)
    ensures m == ToMap(entries)
  {
    m := map[];
    for i := 0 to |entries|
      invariant m == ToMap(entries[..i])
    {
      assert entries[..i + 1][..i] == entries[..i];
      m := WithEntry(m, entries[i]);
    }
    assert entries[..|entries|] == entries;
  }

  lemma ExtractedScope(scopes: EntryMap, e: Entry)
    requires KeyedByName(scopes)
    ensures Extracted(WithEntry(scopes, e), map[]) == Added(Extracted(scopes, map[]), FromEntry(e))
  {
  }

  lemma ExtractedRole(scopes: EntryMap, roles: EntryMap, e: Entry)
    requires KeyedByName(scopes) && KeyedByName(roles)
    ensures Extracted(scopes, WithEntry(roles, e)) == Added(Extracted(scopes, roles), FromEntry(e))
  {
  }

  method ExtractPermissions(scopes: seq<Entry>, roles: seq<Entry>) returns (r: PermissionMap)
    ensures r == Extracted(ToMap(scopes), ToMap(roles))
  {
    r := map[];
    for i := 0 to |scopes|
      invariant r == Extracted(ToMap(scopes[..i]), map[])
    {
      assert scopes[..i + 1][..i] == scopes[..i];
      ExtractedScope(ToMap(scopes[..i]), scopes[i]);
      r := Added(r, FromEntry(scopes[i]));
    }
    assert scopes[..|scopes|] == scopes;
    for i := 0 to |roles|
      invariant r == Extracted(ToMap(scopes), ToMap(roles[..i]))
    {
      assert roles[..i + 1][..i] == roles[..i];
      ExtractedRole(ToMap(scopes), ToMap(roles[..i]), roles[i]);
      r := Added(r, FromEntry(roles[i]));
    }
    assert roles[..|roles|] == roles;
  }

  lemma {:induction false} ToMapNames(entries: seq<Entry>)
    ensures forall e :: e in entries ==> e.value in ToMap(entries)
    ensures forall n :: n in ToMap(entries) ==> ToMap(entries)[n] in entries
  {
    if entries != [] {
      var init := entries[..|entries| - 1];
      ToMapNames(init);
      assert entries == init + [entries[|entries| - 1]];
    }
  }

  method GeneratePreservingExisting(rules: seq<Option<Grants>>, newId: string -> string, scopes: seq<Entry>, roles: seq<Entry>)
    returns (r: PermissionMap)
    ensures r == Preserving(Desired(Requested(rules), newId), Extracted(ToMap(scopes), ToMap(roles)))
  {
    var desired := GenerateDesiredPermissionSet(rules, newId);
    var actual := ExtractPermissions(scopes, roles);
    r := PreserveExisting(desired, actual);
  }

  /** What exists already takes the place of what is desired, name by name, in any order. */
  method PreserveExisting(desired: PermissionMap, actual: PermissionMap) returns (r: PermissionMap)
    ensures r == Preserving(desired, actual)
  {
    r := desired;
    var rest := desired.Keys;
    while rest != {}
      invariant rest <= desired.Keys == r.Keys
      invariant forall n :: n in desired.Keys ==> r[n] == if n in actual && n !in rest then actual[n] else desired[n]
      decreases rest
    {
      var n :| n in rest;
      rest := rest - {n};
      if n in actual {
        r := r[n := actual[n]];
      }
    }
  }

  // -------------------------------------------------- creating, disabling

  function ToCreate(side: Side, m: EntryMap, desired: PermissionMap): EntryMap {
    map n | n in (desired.Keys + {ReservedName(side)}) - m.Keys ::
      if n == ReservedName(side) then DefaultEntry(side) else NewEntry(side, desired[n].id, n)
  }

  function ToDisable(side: Side, m: EntryMap, desired: PermissionMap): EntryMap {
    map n | n in m && n !in desired && n != ReservedName(side) :: m[n].(enabled := false)
  }

  function Unmodified(side: Side, m: EntryMap, toCreate: EntryMap, toDisable: EntryMap): EntryMap {
    map n | n in m && n !in toCreate && n !in toDisable :: NewEntry(side, m[n].id, n)
  }

  /** What a scope list goes through in the end: every scope requires admin consent. */
  function Finished(side: Side, e: Entry): Entry {
    if side.Scopes? then e.(kind := SCOPE_TYPE) else e
  }

  /** What an update makes of the entries of one list, by name. */
  function Described(side: Side, m: EntryMap, desired: PermissionMap): EntryMap {
    map n | n in m.Keys + desired.Keys + {ReservedName(side)} ::
      if n !in m then
        if n == ReservedName(side) then DefaultEntry(side) else NewEntry(side, desired[n].id, n)
      else if n in desired || n == ReservedName(side) then
        NewEntry(side, m[n].id, n)
      else
        Finished(side, m[n].(enabled := false))
  }

  /** A list that holds each entry of the map once, in some order. */
  ghost predicate Lists(entries: seq<Entry>, m: EntryMap) {
    && KeyedByName(m)
    && (forall e :: e in entries ==> e.value in m && m[e.value] == e)
    && (forall n :: n in m ==> m[n] in entries)
    && (forall i, j :: 0 <= i < j < |entries| ==> entries[i].value != entries[j].value)
  }

  /** Reading such a list back gives the map. */
  lemma ListedMap(entries: seq<Entry>, m: EntryMap)
    requires Lists(entries, m)
    ensures ToMap(entries) == m
  {
    ToMapNames(entries);
    assert ToMap(entries).Keys == m.Keys;
  }
}
