/** Every update keeps the IDs of different permissions apart, provided that generated IDs are
    new; the directory and the assignments rely on it. */
module PermissionIds {

  import opened ApplicationUpdate
  import opened Assignments
  import opened Permissions

  predicate HasId(e: Entries, n: string, id: string) {
    || (n in e.scopes && e.scopes[n].id == id)
    || (n in e.roles && e.roles[n].id == id)
  }

  /** An ID belongs to one name, and a reserved ID to its reserved name. */
  ghost predicate HasDistinctIds(e: Entries) {
    && (forall n, k, id :: HasId(e, n, id) && HasId(e, k, id) ==> n == k)
    && (forall n, side: Side :: HasId(e, n, ReservedId(side)) ==> n == ReservedName(side))
  }

  /** What is generated is new, and never the same for two names. */
  ghost predicate AreNewIds(newId: string -> string, e: Entries) {
    && (forall n, k :: newId(n) == newId(k) ==> n == k)
    && (forall n, k :: !HasId(e, k, newId(n)))
    && (forall n, side: Side :: newId(n) != ReservedId(side))
  }

  /** The IDs that a name can get: one that it has, a new one, or a reserved one that is its own. */
  predicate CanGetId(e: Entries, newId: string -> string, n: string, id: string) {
    || HasId(e, n, id)
    || id == newId(n)
    || (n == DEFAULT_ROLE_NAME && id == DEFAULT_ROLE_ID)
    || (n == DEFAULT_SCOPE_NAME && id == DEFAULT_SCOPE_ID)
  }

  lemma ReservedIdsDiffer()
    ensures DEFAULT_ROLE_ID != DEFAULT_SCOPE_ID && DEFAULT_ROLE_NAME != DEFAULT_SCOPE_NAME
  {
  }

  lemma CanGetOne(e: Entries, newId: string -> string, n: string, k: string, id: string)
    requires HasDistinctIds(e) && AreNewIds(newId, e) && CanGetId(e, newId, n, id) && CanGetId(e, newId, k, id)
    ensures n == k
  {
    ReservedIdsDiffer();
    assert ReservedId(Roles) == DEFAULT_ROLE_ID && ReservedId(Scopes) == DEFAULT_SCOPE_ID;
  }

  lemma PatchedIds(requested: set<string>, newId: string -> string, e: Entries, n: string, id: string)
    requires Keyed(e) && HasId(Patched(requested, newId, e), n, id)
    ensures CanGetId(e, newId, n, id)
  {
  }

  lemma PatchKeepsIdsDistinct(requested: set<string>, newId: string -> string, e: Entries)
    requires Keyed(e) && HasDistinctIds(e) && AreNewIds(newId, e)
    ensures HasDistinctIds(Patched(requested, newId, e))
  {
    var patched := Patched(requested, newId, e);
    forall n, k, id | HasId(patched, n, id) && HasId(patched, k, id)
      ensures n == k
    {
      PatchedIds(requested, newId, e, n, id);
      PatchedIds(requested, newId, e, k, id);
      CanGetOne(e, newId, n, k, id);
    }
    forall n, side: Side | HasId(patched, n, ReservedId(side))
      ensures n == ReservedName(side)
    {
      PatchedIds(requested, newId, e, n, ReservedId(side));
      CanGetOne(e, newId, n, ReservedName(side), ReservedId(side));
    }
  }

  lemma CleaningKeepsIdsDistinct(e: Entries)
    requires HasDistinctIds(e)
    ensures HasDistinctIds(Cleaned(e))
  {
    assert forall n, id :: HasId(Cleaned(e), n, id) ==> HasId(e, n, id);
  }

  /** Over any updates, complete or not, no ID comes to belong to two names. */
  ghost predicate GenerateNewIds(e: Entries, requests: seq<Request>)
    decreases |requests|
  {
    requests != [] ==> AreNewIds(requests[0].newId, e) && GenerateNewIds(AfterRequest(e, requests[0]), requests[1..])
  }

  lemma {:induction false} UpdatesKeepIdsDistinct(e: Entries, requests: seq<Request>)
    requires Keyed(e) && HasDistinctIds(e) && GenerateNewIds(e, requests)
    ensures HasDistinctIds(AfterUpdates(e, requests))
    decreases |requests|
  {
    if requests != [] {
      var r := requests[0];
      PatchKeepsIdsDistinct(r.requested, r.newId, e);
      CleaningKeepsIdsDistinct(Patched(r.requested, r.newId, e));
      RequestIsKeyed(e, r);
      UpdatesKeepIdsDistinct(AfterRequest(e, r), requests[1..]);
    }
  }

  lemma RequestIsKeyed(e: Entries, r: Request)
    requires Keyed(e)
    ensures Keyed(AfterRequest(e, r))
  {
    var desired := DesiredFor(r.requested, r.newId, e);
    UpdatedIsKeyed(r.requested, r.newId, e);
    DesiredNames(r.requested, r.newId, e);
    DescribedEntries(Scopes, e.scopes, desired);
    DescribedEntries(Roles, e.roles, desired);
  }

  /** So the permissions that assignments are made for have distinct IDs. */
  lemma ExtractedIdsAreDistinct(e: Entries)
    requires Keyed(e) && HasDistinctIds(e)
    ensures DistinctIds(Extracted(e.scopes, e.roles))
  {
    var extracted := Extracted(e.scopes, e.roles);
    assert forall n :: n in extracted ==> HasId(e, n, extracted[n].id);
  }
}
