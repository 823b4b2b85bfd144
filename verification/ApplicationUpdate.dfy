/** One update of an app's roles and scopes: first what is not desired is disabled, and
    what is missing is added; in the end, what is disabled is deleted. */
module ApplicationUpdate {

  import opened Permissions
  import opened PermissionLists

  // ------------------------------------------------------- specification

  /** The entries of an app, by name. */
  datatype Entries = Entries(scopes: EntryMap, roles: EntryMap)

  function Of(e: Entries, side: Side): EntryMap {
    if side.Roles? then e.roles else e.scopes
  }

  function Other(side: Side): Side {
    if side.Roles? then Scopes else Roles
  }

  predicate Keyed(e: Entries) {
    KeyedByName(e.scopes) && KeyedByName(e.roles)
  }

  function DesiredFor(requested: set<string>, newId: string -> string, e: Entries): PermissionMap {
    Preserving(Desired(requested, newId), Extracted(e.scopes, e.roles))
  }

  function Patched(requested: set<string>, newId: string -> string, e: Entries): Entries {
    var desired := DesiredFor(requested, newId, e);
    Entries(Described(Scopes, e.scopes, desired), Described(Roles, e.roles, desired))
  }

  function Cleaned(e: Entries): Entries {
    Entries(EnabledIn(e.scopes), EnabledIn(e.roles))
  }

  function Updated(requested: set<string>, newId: string -> string, e: Entries): Entries {
    Cleaned(Patched(requested, newId, e))
  }

  function Created(requested: set<string>, newId: string -> string): Entries {
    var desired := Desired(requested, newId);
    Entries(ToCreate(Scopes, map[], desired), ToCreate(Roles, map[], desired))
  }

  // --------------------------------------------------------- convergence

  lemma DesiredNames(requested: set<string>, newId: string -> string, e: Entries)
    requires Keyed(e)
    ensures DesiredFor(requested, newId, e).Keys == Names(requested)
    ensures KeyedPermissions(DesiredFor(requested, newId, e))
  {
  }

  /** One list: what is desired is enabled, in the standard form, and keeps its ID. */
  lemma DescribedEntries(side: Side, m: EntryMap, desired: PermissionMap)
    requires KeyedByName(m) && ReservedName(side) in desired
    ensures var d := Described(side, m, desired);
            && KeyedByName(d)
            && d.Keys == m.Keys + desired.Keys
            && (forall n :: n in desired ==> d[n] == NewEntry(side, d[n].id, n))
            && (forall n :: n in m ==> d[n].id == m[n].id)
            && (forall n :: n in m && n !in desired ==> !d[n].enabled)
  {
  }

  lemma EnabledEntries(side: Side, m: EntryMap, desired: PermissionMap)
    requires KeyedByName(m) && ReservedName(side) in desired
    ensures var u := EnabledIn(Described(side, m, desired));
            && KeyedByName(u)
            && u.Keys == desired.Keys
            && (forall n :: n in desired ==> u[n] == NewEntry(side, u[n].id, n))
            && (forall n :: n in desired && n in m ==> u[n].id == m[n].id)
  {
  }

  lemma DescribedAgain(side: Side, m: EntryMap, desired: PermissionMap)
    requires ReservedName(side) in desired && m.Keys == desired.Keys
    requires forall n :: n in m ==> m[n] == NewEntry(side, m[n].id, n)
    ensures Described(side, m, desired) == m && EnabledIn(m) == m
  {
  }

  lemma UpdatedSide(requested: set<string>, newId: string -> string, e: Entries, side: Side)
    requires Keyed(e)
    ensures var desired := DesiredFor(requested, newId, e);
            && ReservedName(side) in desired && desired.Keys == Names(requested)
            && Of(Patched(requested, newId, e), side) == Described(side, Of(e, side), desired)
            && Of(Updated(requested, newId, e), side) == EnabledIn(Described(side, Of(e, side), desired))
  {
  }

  /** An update reaches the spec: both lists have exactly the desired names, all enabled,
      and a desired entry that existed keeps its ID. */
  lemma UpdateReachesSpec(requested: set<string>, newId: string -> string, e: Entries, side: Side)
    requires Keyed(e)
    ensures var u := Of(Updated(requested, newId, e), side);
            && KeyedByName(u)
            && u.Keys == Names(requested)
            && (forall n :: n in u ==> u[n] == NewEntry(side, u[n].id, n))
            && (forall n :: n in u && n in Of(e, side) ==> u[n].id == Of(e, side)[n].id)
  {
    UpdatedSide(requested, newId, e, side);
    EnabledEntries(side, Of(e, side), DesiredFor(requested, newId, e));
  }

  lemma UpdatedIsKeyed(requested: set<string>, newId: string -> string, e: Entries)
    requires Keyed(e)
    ensures Keyed(Updated(requested, newId, e))
  {
    UpdateReachesSpec(requested, newId, e, Scopes);
    UpdateReachesSpec(requested, newId, e, Roles);
  }

  lemma SecondUpdateOfSide(requested: set<string>, newId: string -> string, newId': string -> string, e: Entries, side: Side)
    requires Keyed(e)
    ensures var u := Updated(requested, newId, e);
            && Of(Patched(requested, newId', u), side) == Of(u, side)
            && Of(Updated(requested, newId', u), side) == Of(u, side)
  {
    var u := Updated(requested, newId, e);
    UpdateReachesSpec(requested, newId, e, side);
    UpdatedIsKeyed(requested, newId, e);
    UpdatedSide(requested, newId', u, side);
    DescribedAgain(side, Of(u, side), DesiredFor(requested, newId', u));
  }

  /** Updating again with the same spec changes nothing, neither at the patch nor at the end,
      whatever IDs would be generated. */
  lemma SecondUpdateChangesNothing(requested: set<string>, newId: string -> string, newId': string -> string, e: Entries)
    requires Keyed(e)
    ensures Patched(requested, newId', Updated(requested, newId, e)) == Updated(requested, newId, e)
    ensures Updated(requested, newId', Updated(requested, newId, e)) == Updated(requested, newId, e)
  {
    SecondUpdateOfSide(requested, newId, newId', e, Scopes);
    SecondUpdateOfSide(requested, newId, newId', e, Roles);
  }

  /** Whatever the final step deletes was disabled by the patch before it, which itself
      deletes nothing: it keeps every entry's ID. */
  lemma DeletedWasDisabled(requested: set<string>, newId: string -> string, e: Entries, side: Side)
    requires Keyed(e)
    ensures forall n :: n in Of(e, side) ==>
              && n in Of(Patched(requested, newId, e), side)
              && Of(Patched(requested, newId, e), side)[n].id == Of(e, side)[n].id
    ensures forall n :: n in Of(Patched(requested, newId, e), side) && n !in Of(Updated(requested, newId, e), side) ==>
              !Of(Patched(requested, newId, e), side)[n].enabled
  {
    UpdatedSide(requested, newId, e, side);
    DescribedEntries(side, Of(e, side), DesiredFor(requested, newId, e));
  }

  // ----------------------------------------------------------- coherence

  /** A name that is both a scope and a role has one ID. */
  predicate Coherent(e: Entries) {
    forall n :: n in e.scopes && n in e.roles ==> e.scopes[n].id == e.roles[n].id
  }

  /** The reserved name of one list is in it, or else carries the reserved ID in the other
      list, or else is not asked for by the spec. */
  predicate ReservedIsFree(requested: set<string>, e: Entries, side: Side) {
    var n := ReservedName(side);
    || n in Of(e, side)
    || (if n in Of(e, Other(side)) then Of(e, Other(side))[n].id == ReservedId(side) else n !in requested)
  }

  predicate StaysCoherent(requested: set<string>, e: Entries) {
    && (forall n :: n in Names(requested) && n in e.scopes && n in e.roles ==> e.scopes[n].id == e.roles[n].id)
    && ReservedIsFree(requested, e, Roles)
    && ReservedIsFree(requested, e, Scopes)
  }

  /** A generated ID is none of the two reserved ones. */
  predicate AvoidsReserved(newId: string -> string) {
    newId(DEFAULT_ROLE_NAME) != DEFAULT_ROLE_ID && newId(DEFAULT_SCOPE_NAME) != DEFAULT_SCOPE_ID
  }

  /** The ID under which an entry ends up. */
  function FinalId(requested: set<string>, newId: string -> string, e: Entries, side: Side, n: string): string {
    if n in Of(e, side) then
      Of(e, side)[n].id
    else if n == ReservedName(side) then
      ReservedId(side)
    else if n in Of(e, Other(side)) then
      Of(e, Other(side))[n].id
    else if n in requested then
      newId(n)
    else
      ReservedId(Other(side))
  }

  lemma DesiredId(requested: set<string>, newId: string -> string, e: Entries, n: string)
    requires Keyed(e) && n in Names(requested)
    ensures n in DesiredFor(requested, newId, e)
    ensures DesiredFor(requested, newId, e)[n].id ==
            if n in e.scopes then e.scopes[n].id
            else if n in e.roles then e.roles[n].id
            else if n in requested then newId(n)
            else if n == DEFAULT_ROLE_NAME then DEFAULT_ROLE_ID
            else DEFAULT_SCOPE_ID
  {
  }

  lemma EnabledId(side: Side, m: EntryMap, desired: PermissionMap, n: string)
    requires n in desired
    ensures n in EnabledIn(Described(side, m, desired))
    ensures EnabledIn(Described(side, m, desired))[n].id ==
            if n in m then m[n].id else if n == ReservedName(side) then ReservedId(side) else desired[n].id
  {
  }

  lemma FinalIdIsDesired(requested: set<string>, newId: string -> string, e: Entries, side: Side, n: string)
    requires Keyed(e) && n in Names(requested) && n in DesiredFor(requested, newId, e)
    ensures FinalId(requested, newId, e, side, n) ==
            if n in Of(e, side) then Of(e, side)[n].id
            else if n == ReservedName(side) then ReservedId(side)
            else DesiredFor(requested, newId, e)[n].id
  {
    DesiredId(requested, newId, e, n);
  }

  lemma UpdatedId(requested: set<string>, newId: string -> string, e: Entries, side: Side, n: string)
    requires Keyed(e) && n in Names(requested)
    ensures n in Of(Updated(requested, newId, e), side)
    ensures Of(Updated(requested, newId, e), side)[n].id == FinalId(requested, newId, e, side, n)
  {
    UpdatedSide(requested, newId, e, side);
    FinalIdIsDesired(requested, newId, e, side, n);
    EnabledId(side, Of(e, side), DesiredFor(requested, newId, e), n);
  }

  lemma FinalIdsAgree(requested: set<string>, newId: string -> string, e: Entries, n: string)
    requires n in Names(requested) && AvoidsReserved(newId)
    ensures FinalId(requested, newId, e, Scopes, n) == FinalId(requested, newId, e, Roles, n) <==>
            && (n in e.scopes && n in e.roles ==> e.scopes[n].id == e.roles[n].id)
            && (n == DEFAULT_ROLE_NAME ==> ReservedIsFree(requested, e, Roles))
            && (n == DEFAULT_SCOPE_NAME ==> ReservedIsFree(requested, e, Scopes))
  {
  }

  /** Exactly when an update leaves roles and scopes coherent. */
  lemma UpdateIsCoherent(requested: set<string>, newId: string -> string, e: Entries)
    requires Keyed(e) && AvoidsReserved(newId)
    ensures Coherent(Updated(requested, newId, e)) <==> StaysCoherent(requested, e)
  {
    var updated := Updated(requested, newId, e);
    UpdateReachesSpec(requested, newId, e, Scopes);
    UpdateReachesSpec(requested, newId, e, Roles);
    forall n | n in Names(requested)
      ensures updated.scopes[n].id == updated.roles[n].id <==>
              FinalId(requested, newId, e, Scopes, n) == FinalId(requested, newId, e, Roles, n)
    {
      UpdatedId(requested, newId, e, Scopes, n);
      UpdatedId(requested, newId, e, Roles, n);
    }
    forall n | n in Names(requested) {
      FinalIdsAgree(requested, newId, e, n);
    }
    assert DEFAULT_ROLE_NAME in Names(requested) && DEFAULT_SCOPE_NAME in Names(requested);
  }

  /** Creating is updating from nothing, and so coherent exactly if the spec asks for
      neither of the reserved names. */
  lemma CreateIsUpdateFromNothing(requested: set<string>, newId: string -> string)
    ensures Created(requested, newId) == Updated(requested, newId, Entries(map[], map[]))
  {
    var nothing := Entries(map[], map[]);
    DesiredFromNothing(requested, newId);
    CreatedSide(Scopes, Desired(requested, newId));
    CreatedSide(Roles, Desired(requested, newId));
  }

  lemma DesiredFromNothing(requested: set<string>, newId: string -> string)
    ensures DesiredFor(requested, newId, Entries(map[], map[])) == Desired(requested, newId)
  {
  }

  lemma CreatedSide(side: Side, desired: PermissionMap)
    ensures ToCreate(side, map[], desired) == EnabledIn(Described(side, map[], desired))
  {
  }

  lemma NothingStaysCoherent(requested: set<string>)
    ensures StaysCoherent(requested, Entries(map[], map[])) <==>
            DEFAULT_ROLE_NAME !in requested && DEFAULT_SCOPE_NAME !in requested
  {
  }

  lemma CreateIsCoherent(requested: set<string>, newId: string -> string)
    requires AvoidsReserved(newId)
    ensures Coherent(Created(requested, newId)) <==> DEFAULT_ROLE_NAME !in requested && DEFAULT_SCOPE_NAME !in requested
  {
    var nothing := Entries(map[], map[]);
    CreateIsUpdateFromNothing(requested, newId);
    UpdateIsCoherent(requested, newId, nothing);
    NothingStaysCoherent(requested);
  }

  // ---------------------------------------------------------------- runs

  /** An update: what its spec asks for, and whether it gets as far as the final step. */
  datatype Request = Request(requested: set<string>, newId: string -> string, completes: bool)

  function AfterRequest(e: Entries, r: Request): Entries {
    if r.completes then Updated(r.requested, r.newId, e) else Patched(r.requested, r.newId, e)
  }

  function AfterUpdates(e: Entries, requests: seq<Request>): Entries
    decreases |requests|
  {
    if requests == [] then e else AfterUpdates(AfterRequest(e, requests[0]), requests[1..])
  }

  /** Both reserved names are in both lists. */
  predicate IsComplete(e: Entries) {
    && {DEFAULT_ROLE_NAME, DEFAULT_SCOPE_NAME} <= e.scopes.Keys
    && {DEFAULT_ROLE_NAME, DEFAULT_SCOPE_NAME} <= e.roles.Keys
  }

  /** The patch alone differs from the update only in what it has yet to delete. */
  lemma PatchIsCoherent(requested: set<string>, newId: string -> string, e: Entries)
    requires Keyed(e) && Coherent(e) && Coherent(Updated(requested, newId, e))
    ensures Keyed(Patched(requested, newId, e)) && Coherent(Patched(requested, newId, e))
  {
    var desired, patched, updated := DesiredFor(requested, newId, e), Patched(requested, newId, e), Updated(requested, newId, e);
    UpdatedSide(requested, newId, e, Scopes);
    UpdatedSide(requested, newId, e, Roles);
    DescribedEntries(Scopes, e.scopes, desired);
    DescribedEntries(Roles, e.roles, desired);
    forall n | n in patched.scopes && n in patched.roles
      ensures patched.scopes[n].id == patched.roles[n].id
    {
      if n in desired {
        assert n in updated.scopes && n in updated.roles;
      }
    }
  }

  predicate IsInOrder(e: Entries) {
    Keyed(e) && IsComplete(e) && Coherent(e)
  }

  lemma RequestStaysCoherent(e: Entries, r: Request)
    requires IsInOrder(e) && AvoidsReserved(r.newId)
    ensures IsInOrder(AfterRequest(e, r))
  {
    UpdateReachesSpec(r.requested, r.newId, e, Scopes);
    UpdateReachesSpec(r.requested, r.newId, e, Roles);
    UpdateIsCoherent(r.requested, r.newId, e);
    PatchIsCoherent(r.requested, r.newId, e);
  }

  /** Once complete and coherent, an app stays so under any updates, whatever their specs ask
      for, and even where they fail half-way. */
  lemma {:induction false} UpdatesStayCoherent(e: Entries, requests: seq<Request>)
    requires IsInOrder(e) && forall r :: r in requests ==> AvoidsReserved(r.newId)
    ensures IsInOrder(AfterUpdates(e, requests))
    decreases |requests|
  {
    if requests != [] {
      RequestStaysCoherent(e, requests[0]);
      UpdatesStayCoherent(AfterRequest(e, requests[0]), requests[1..]);
    }
  }

  /** So an app is coherent for good if the spec that it was created from avoids the reserved names. */
  lemma CreatedStaysCoherent(first: Request, requests: seq<Request>)
    requires DEFAULT_ROLE_NAME !in first.requested && DEFAULT_SCOPE_NAME !in first.requested
    requires AvoidsReserved(first.newId) && forall r :: r in requests ==> AvoidsReserved(r.newId)
    ensures Coherent(AfterUpdates(Created(first.requested, first.newId), requests))
  {
    var nothing := Entries(map[], map[]);
    CreateIsUpdateFromNothing(first.requested, first.newId);
    CreateIsCoherent(first.requested, first.newId);
    UpdateReachesSpec(first.requested, first.newId, nothing, Scopes);
    UpdateReachesSpec(first.requested, first.newId, nothing, Roles);
    UpdatesStayCoherent(Created(first.requested, first.newId), requests);
  }
}
