/** The periodic sweep: it marks the resources whose pre-authorized apps have come into being,
    or, in other clusters, have come to have another client ID, since they were reported. */
module Sweeper {

  import opened Annotations
  import opened Wrappers
  import Completion
  import Strings
  import Synchronizer

  type Name = string

  /** In milliseconds. */
  const MIN_INTERVAL := 1000

  /** What the directory says of an app; `assignable` if it has a service principal as well. */
  datatype Found = Found(clientId: string, assignable: bool)

  /** An entry of a status. */
  datatype Entry = Entry(rule: Option<Synchronizer.Rule>, clientId: string)

  datatype Status = Status(assignedApps: seq<Entry>, unassignedApps: seq<Entry>)

  /** A resource as it was listed. */
  datatype App = App(key: Synchronizer.Key, annotations: AnnotationMap, tenant: string, status: Option<Status>)

  // ------------------------------------------------------- specification

  function UniqueName(rule: Synchronizer.Rule): Name {
    Strings.QualifiedName(rule.cluster, rule.namespace, rule.application)
  }

  /** What there is to be found, given the client IDs of the apps that can be assigned. */
  function Actual(directory: map<Name, string>, name: Name): Found {
    if name in directory then Found(directory[name], true) else Found("", false)
  }

  predicate HasAppeared(e: Entry, found: Found) {
    e.rule.Some? && found.assignable
  }

  predicate HasMoved(e: Entry, found: Found, cluster: string) {
    e.rule.Some? && e.rule.value.cluster != cluster && found.assignable && found.clientId != e.clientId
  }

  /** What calls for a mark, of an entry that is assigned or is not. */
  predicate IsStale(e: Entry, isAssigned: bool, found: Found, cluster: string) {
    if isAssigned then HasMoved(e, found, cluster) else HasAppeared(e, found)
  }

  predicate IsOutdatedEntry(e: Entry, isAssigned: bool, cluster: string, directory: map<Name, string>) {
    e.rule.Some? && IsStale(e, isAssigned, Actual(directory, UniqueName(e.rule.value)), cluster)
  }

  /** Whether a status is out of date, in a way that no event will tell. */
  predicate IsOutdated(s: Status, cluster: string, directory: map<Name, string>) {
    || (exists e :: e in s.unassignedApps && IsOutdatedEntry(e, false, cluster, directory))
    || (exists e :: e in s.assignedApps && IsOutdatedEntry(e, true, cluster, directory))
  }

  predicate IsDue(app: App, cluster: string, tenant: string, directory: map<Name, string>) {
    && app.status.Some?
    && app.tenant == tenant
    && RESYNCHRONIZE_KEY !in app.annotations
    && IsOutdated(app.status.value, cluster, directory)
  }

  // ------------------------------------------------------- what is lagging

  /** One that was not assigned is there now, or one of another cluster has another client ID now. */
  predicate IsLagging(app: App, cluster: string, tenant: string, directory: map<Name, string>) {
    && app.status.Some? && app.tenant == tenant && "azure.nais.io/resync" !in app.annotations
    && (|| (exists e :: e in app.status.value.unassignedApps && e.rule.Some? && UniqueName(e.rule.value) in directory)
        || (exists e :: e in app.status.value.assignedApps && e.rule.Some? && e.rule.value.cluster != cluster &&
                        UniqueName(e.rule.value) in directory && directory[UniqueName(e.rule.value)] != e.clientId))
  }

  lemma DueExactly(app: App, cluster: string, tenant: string, directory: map<Name, string>)
    ensures IsDue(app, cluster, tenant, directory) <==> IsLagging(app, cluster, tenant, directory)
  {
  }

  // ------------------------------------------------------------- the cache

  datatype Item = Item(found: Found, expires: int)

  datatype Lookup = Lookup(name: Name, found: Found, at: int)

  /** It was looked up no longer before `since` than the cache keeps it. */
  predicate WasFound(seen: set<Lookup>, since: int, ttl: int, name: Name, found: Found) {
    exists l :: l in seen && l.name == name && l.found == found && since <= l.at + ttl
  }

  predicate Agrees(items: map<Name, Item>, directory: map<Name, string>) {
    forall n :: n in items ==> items[n].found == Actual(directory, n)
  }

  /** An entry for which something was found that calls for a mark. */
  ghost predicate HasGrounds(e: Entry, isAssigned: bool, cluster: string, seen: set<Lookup>, since: int, ttl: int) {
    e.rule.Some? && exists f :: IsStale(e, isAssigned, f, cluster) && WasFound(seen, since, ttl, UniqueName(e.rule.value), f)
  }

  ghost predicate StatusHasGrounds(s: Status, cluster: string, seen: set<Lookup>, since: int, ttl: int) {
    || (exists e :: e in s.unassignedApps && HasGrounds(e, false, cluster, seen, since, ttl))
    || (exists e :: e in s.assignedApps && HasGrounds(e, true, cluster, seen, since, ttl))
  }

  lemma GroundsBefore(e: Entry, isAssigned: bool, cluster: string, seen: set<Lookup>, later: int, since: int, ttl: int)
    requires HasGrounds(e, isAssigned, cluster, seen, later, ttl) && since <= later
    ensures HasGrounds(e, isAssigned, cluster, seen, since, ttl)
  {
  }

  class Cache {
    const interval: int
    const ttl: int
    var items: map<Name, Item>
    var now: int
    ghost var seen: set<Lookup>
    ghost var failures: nat

    ghost predicate Valid()
      reads this
    {
      && 0 <= ttl < interval
      && forall n :: n in items ==> Lookup(n, items[n].found, items[n].expires - ttl) in seen
    }

    /** An answer is kept for half an interval, so that none is used by two sweeps an interval apart. */
    constructor (interval: int)
      ensures Valid() && this.interval >= interval && this.interval >= 1000 && 2 * ttl <= this.interval
    {
      var atLeast := if interval < MIN_INTERVAL then MIN_INTERVAL else interval;
      this.interval := atLeast;
      ttl := atLeast / 2;
      items := map[];
      seen := {};
      failures := 0;
    }

    /** None if the lookup fails; this is counted, and nothing is remembered. */
    method Resolve(name: Name, directory: map<Name, string>) returns (r: Option<Found>)
      requires Valid()
      modifies this
      ensures Valid() && old(now) <= now && old(seen) <= seen
      ensures failures == if r.Some? then old(failures) else old(failures) + 1
      ensures forall l :: l in seen && l !in old(seen) ==> l.found == Actual(directory, l.name)
      ensures r.Some? ==> WasFound(seen, old(now), ttl, name, r.value)
      ensures Agrees(old(items), directory) ==> Agrees(items, directory) && (r.Some? ==> r.value == Actual(directory, name))
    {
      var later: int, fails: bool := *, *;
      if now <= later {
        now := later;
      }
      if name in items && now <= items[name].expires {
        assert Lookup(name, items[name].found, items[name].expires - ttl) in seen;
        return Some(items[name].found);
      }
      if fails {
        failures := failures + 1;
        return None;
      }
      var found := Actual(directory, name);
      items := items[name := Item(found, now + ttl)];
      seen := seen + {Lookup(name, found, now)};
      assert Lookup(name, found, now) in seen;
      return Some(found);
    }

    method HasStaleEntry(entries: seq<Entry>, areAssigned: bool, cluster: string, directory: map<Name, string>) returns (r: bool)
      requires Valid()
      modifies this
      ensures Valid() && old(now) <= now && old(seen) <= seen && old(failures) <= failures
      ensures Agrees(old(items), directory) ==> Agrees(items, directory)
      ensures r ==> exists e :: e in entries && HasGrounds(e, areAssigned, cluster, seen, old(now), ttl)
      ensures Agrees(old(items), directory) && r ==> exists e :: e in entries && IsOutdatedEntry(e, areAssigned, cluster, directory)
      ensures Agrees(old(items), directory) && !r && failures == old(failures) ==>
                forall e :: e in entries ==> !IsOutdatedEntry(e, areAssigned, cluster, directory)
    {
      for i := 0 to |entries|
        invariant Valid() && old(now) <= now && old(seen) <= seen && old(failures) <= failures
        invariant Agrees(old(items), directory) ==> Agrees(items, directory)
        invariant failures == old(failures) && Agrees(old(items), directory) ==>
                    forall j :: 0 <= j < i ==> !IsOutdatedEntry(entries[j], areAssigned, cluster, directory)
      {
        var e := entries[i];
        // a client ID that changed within the cluster is left to the events
        if e.rule.None? || (areAssigned && e.rule.value.cluster == cluster) {
          continue;
        }
        ghost var later := now;
        var found := Resolve(UniqueName(e.rule.value), directory);
        if found.Some? && found.value.assignable && (!areAssigned || found.value.clientId != e.clientId) {
          assert e in entries && IsStale(e, areAssigned, found.value, cluster);
          GroundsBefore(e, areAssigned, cluster, seen, later, old(now), ttl);
          return true;
        }
      }
      return false;
    }

    method HasResyncable(s: Status, cluster: string, directory: map<Name, string>) returns (r: bool)
      requires Valid()
      modifies this
      ensures Valid() && old(now) <= now && old(seen) <= seen && old(failures) <= failures
      ensures Agrees(old(items), directory) ==> Agrees(items, directory)
      ensures r ==> StatusHasGrounds(s, cluster, seen, old(now), ttl)
      ensures Agrees(old(items), directory) && r ==> IsOutdated(s, cluster, directory)
      ensures Agrees(old(items), directory) && !r && failures == old(failures) ==> !IsOutdated(s, cluster, directory)
    {
      r := HasStaleEntry(s.unassignedApps, false, cluster, directory);
      if r {
        return;
      }
      ghost var later := now;
      r := HasStaleEntry(s.assignedApps, true, cluster, directory);
      if r {
        ghost var e :| e in s.assignedApps && HasGrounds(e, true, cluster, seen, later, ttl);
        GroundsBefore(e, true, cluster, seen, later, old(now), ttl);
      }
    }

    method ShouldResync(app: App, cluster: string, tenant: string, directory: map<Name, string>) returns (r: bool)
      requires Valid()
      modifies this
      ensures Valid() && old(now) <= now && old(seen) <= seen && old(failures) <= failures
      ensures Agrees(old(items), directory) ==> Agrees(items, directory)
      ensures r ==> app.status.Some? && app.tenant == tenant && RESYNCHRONIZE_KEY !in app.annotations &&
                    StatusHasGrounds(app.status.value, cluster, seen, old(now), ttl)
      ensures Agrees(old(items), directory) && r ==> IsDue(app, cluster, tenant, directory)
      ensures Agrees(old(items), directory) && !r && failures == old(failures) ==> !IsDue(app, cluster, tenant, directory)
    {
      if app.status.None? || app.tenant != tenant || RESYNCHRONIZE_KEY in app.annotations {
        return false;
      }
      r := HasResyncable(app.status.value, cluster, directory);
    }
  }

  // ------------------------------------------------------------- the sweep

  /** A mark is only set where nothing is queued, so that it never gets in the way of an event. */
  predicate IsMarked(before: AnnotationMap, after: AnnotationMap) {
    RESYNCHRONIZE_KEY !in before && after == before[RESYNCHRONIZE_KEY := Completion.SWEEPER]
  }

  /** In terms of the queue, a mark is its one entry. */
  lemma MarkedQueue(before: AnnotationMap, after: AnnotationMap)
    requires IsMarked(before, after)
    ensures Queue(before, RESYNCHRONIZE_KEY) == [] && Queue(after, RESYNCHRONIZE_KEY) == [Completion.SWEEPER]
    ensures after - {RESYNCHRONIZE_KEY} == before
  {
    SplitOfPlain(Completion.SWEEPER);
  }

  /** The annotations of the resources, as they are now. */
  class Live {
    var annotations: map<Synchronizer.Key, AnnotationMap>
    ghost var failures: nat

    /** Any of the calls may fail, and an update that is reported as failed may have been applied. */
    method Resync(key: Synchronizer.Key) returns (r: Result<bool>)
      modifies this
      ensures IsSweptAt(key, old(annotations), annotations)
      ensures r.Ok? ==> key in annotations && RESYNCHRONIZE_KEY in annotations[key]
      ensures r == Ok(true) ==> IsMarked(old(annotations)[key], annotations[key])
      ensures failures == if r.Ok? then old(failures) else old(failures) + 1
    {
      var getFails: bool, applied: bool, reported: bool := *, *, *;
      if getFails || key !in annotations {
        failures := failures + 1;
        return Err;
      }
      var existing := annotations[key];
      if RESYNCHRONIZE_KEY in existing {
        return Ok(false);
      }
      if applied {
        annotations := annotations[key := existing[RESYNCHRONIZE_KEY := Completion.SWEEPER]];
      }
      if !applied || !reported {
        failures := failures + 1;
        return Err;
      }
      return Ok(true);
    }
  }

  /** At most one resource has been marked, and nothing else has changed. */
  predicate IsSweptAt(key: Synchronizer.Key, before: map<Synchronizer.Key, AnnotationMap>, after: map<Synchronizer.Key, AnnotationMap>) {
    after == before || (key in before && key in after && after == before[key := after[key]] && IsMarked(before[key], after[key]))
  }

  /** Whether what was listed calls for a mark. */
  ghost predicate IsCandidate(app: App, key: Synchronizer.Key, cluster: string, tenant: string, directory: map<Name, string>, agreed: bool) {
    && app.key == key && app.status.Some? && RESYNCHRONIZE_KEY !in app.annotations
    && (agreed ==> IsDue(app, cluster, tenant, directory))
  }

  /** What a sweep does to one resource: nothing, or a mark that a listed version calls for. */
  ghost predicate IsSwept(key: Synchronizer.Key, before: AnnotationMap, after: AnnotationMap, listed: seq<App>,
                          cluster: string, tenant: string, directory: map<Name, string>, agreed: bool) {
    after == before ||
    (IsMarked(before, after) && exists app :: app in listed && IsCandidate(app, key, cluster, tenant, directory, agreed))
  }

  /** All resources, likewise. */
  ghost predicate AreSwept(before: map<Synchronizer.Key, AnnotationMap>, after: map<Synchronizer.Key, AnnotationMap>, listed: seq<App>,
                           cluster: string, tenant: string, directory: map<Name, string>, agreed: bool) {
    && after.Keys == before.Keys
    && forall k :: k in before ==> IsSwept(k, before[k], after[k], listed, cluster, tenant, directory, agreed)
  }

  /** What is due among the listed resources is marked. */
  ghost predicate DueAreMarked(live: map<Synchronizer.Key, AnnotationMap>, listed: seq<App>, cluster: string, tenant: string,
                               directory: map<Name, string>) {
    forall app :: app in listed && IsDue(app, cluster, tenant, directory) ==>
                  app.key in live && RESYNCHRONIZE_KEY in live[app.key]
  }

  lemma SweptOneMore(before: map<Synchronizer.Key, AnnotationMap>, middle: map<Synchronizer.Key, AnnotationMap>,
                     after: map<Synchronizer.Key, AnnotationMap>, listed: seq<App>, app: App,
                     cluster: string, tenant: string, directory: map<Name, string>, agreed: bool)
    requires AreSwept(before, middle, listed, cluster, tenant, directory, agreed) && app in listed
    requires IsSweptAt(app.key, middle, after) && IsCandidate(app, app.key, cluster, tenant, directory, agreed)
    ensures AreSwept(before, after, listed, cluster, tenant, directory, agreed)
  {
    forall k | k in before
      ensures IsSwept(k, before[k], after[k], listed, cluster, tenant, directory, agreed)
    {
      assert IsSwept(k, before[k], middle[k], listed, cluster, tenant, directory, agreed);
    }
  }

  lemma MarkedOneMore(middle: map<Synchronizer.Key, AnnotationMap>, after: map<Synchronizer.Key, AnnotationMap>,
                      listed: seq<App>, app: App, cluster: string, tenant: string, directory: map<Name, string>)
    requires DueAreMarked(middle, listed, cluster, tenant, directory)
    requires IsSweptAt(app.key, middle, after)
    requires IsDue(app, cluster, tenant, directory) ==> app.key in after && RESYNCHRONIZE_KEY in after[app.key]
    ensures DueAreMarked(after, listed + [app], cluster, tenant, directory)
  {
  }

  /** Only what is lagging has been marked, and, without a failure, all of it. */
  ghost predicate SweptAsLagging(before: map<Synchronizer.Key, AnnotationMap>, after: map<Synchronizer.Key, AnnotationMap>, listed: seq<App>,
                                 cluster: string, tenant: string, directory: map<Name, string>, complete: bool) {
    && after.Keys == before.Keys
    && (forall k :: k in before && after[k] != before[k] ==>
          exists app :: app in listed && app.key == k && IsLagging(app, cluster, tenant, directory))
    && (complete ==> forall app :: app in listed && IsLagging(app, cluster, tenant, directory) ==>
          app.key in after && "azure.nais.io/resync" in after[app.key])
  }

  lemma SweptExactly(before: map<Synchronizer.Key, AnnotationMap>, after: map<Synchronizer.Key, AnnotationMap>, listed: seq<App>,
                     cluster: string, tenant: string, directory: map<Name, string>, complete: bool)
    requires AreSwept(before, after, listed, cluster, tenant, directory, true)
    requires complete ==> DueAreMarked(after, listed, cluster, tenant, directory)
    ensures SweptAsLagging(before, after, listed, cluster, tenant, directory, complete)
  {
    forall app | app in listed {
      DueExactly(app, cluster, tenant, directory);
    }
    forall k | k in before && after[k] != before[k]
      ensures exists app :: app in listed && app.key == k && IsLagging(app, cluster, tenant, directory)
    {
      assert IsSwept(k, before[k], after[k], listed, cluster, tenant, directory, true);
    }
  }

  /** As far as the cache is up to date, only what is due is marked, and, if no call fails, all
      of it. An error with one resource does not stop the sweep. */
  method Sweep(live: Live, cache: Cache, listed: seq<App>, cluster: string, tenant: string, directory: map<Name, string>)
    requires cache.Valid()
    modifies live, cache
    ensures cache.Valid() && old(cache.failures) <= cache.failures && old(live.failures) <= live.failures
    ensures AreSwept(old(live.annotations), live.annotations, listed, cluster, tenant, directory, Agrees(old(cache.items), directory))
    ensures Agrees(old(cache.items), directory) && cache.failures == old(cache.failures) && live.failures == old(live.failures) ==>
              DueAreMarked(live.annotations, listed, cluster, tenant, directory)
    ensures live.annotations.Keys == old(live.annotations).Keys
    ensures forall k :: k in live.annotations && live.annotations[k] != old(live.annotations)[k] ==>
              && live.annotations[k] == old(live.annotations)[k]["azure.nais.io/resync" := "sweeper"]
              && "azure.nais.io/resync" !in old(live.annotations)[k]
    ensures Agrees(old(cache.items), directory) ==> SweptAsLagging(old(live.annotations), live.annotations, listed, cluster, tenant, directory,
                                                                   cache.failures == old(cache.failures) && live.failures == old(live.failures))
  {
    ghost var before, agreed := live.annotations, Agrees(cache.items, directory);
    for i := 0 to |listed|
      invariant cache.Valid() && old(cache.failures) <= cache.failures && old(live.failures) <= live.failures
      invariant agreed ==> Agrees(cache.items, directory)
      invariant AreSwept(before, live.annotations, listed, cluster, tenant, directory, agreed)
      invariant agreed && cache.failures == old(cache.failures) && live.failures == old(live.failures) ==>
                  DueAreMarked(live.annotations, listed[..i], cluster, tenant, directory)
    {
      assert listed[i] in listed && listed[..i + 1] == listed[..i] + [listed[i]];
      ghost var middle := live.annotations;
      var due := cache.ShouldResync(listed[i], cluster, tenant, directory);
      if due {
        var _ := live.Resync(listed[i].key);
        SweptOneMore(before, middle, live.annotations, listed, listed[i], cluster, tenant, directory, agreed);
      }
      if agreed && cache.failures == old(cache.failures) && live.failures == old(live.failures) {
        MarkedOneMore(middle, live.annotations, listed[..i], listed[i], cluster, tenant, directory);
      }
    }
    assert listed[..|listed|] == listed;
    if agreed {
      SweptExactly(before, live.annotations, listed, cluster, tenant, directory,
                   cache.failures == old(cache.failures) && live.failures == old(live.failures));
    }
  }
}
