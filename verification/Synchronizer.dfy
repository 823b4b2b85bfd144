/** The fan-out of an event to the apps that list its producer. */
module Synchronizer {

  import opened Wrappers
  import opened Annotations
  import Completion
  import Strings

  const CREATED := "Created"
  const UPDATED := "Updated"

  datatype Producer = Producer(name: string, namespace: string, cluster: string, clientId: string)

  datatype Event = Event(id: string, name: string, app: Producer)

  datatype Rule = Rule(application: string, namespace: string, cluster: string)

  datatype AssignedApp = AssignedApp(rule: Option<Rule>, clientId: string)

  datatype Key = Key(namespace: string, name: string)

  /** The part of a resource that the fan-out looks at. */
  datatype App = App(key: Key, preAuthorized: seq<Rule>, assignedApps: Option<seq<AssignedApp>>)

  // ------------------------------------------------------- specification

  function EntryOf(p: Producer): string {
    Strings.QualifiedName(p.cluster, p.namespace, p.name)
  }

  predicate Complete(e: Event) {
    e.app.name != "" && e.app.namespace != "" && e.app.cluster != "" && e.app.clientId != ""
  }

  predicate Propagated(e: Event) {
    (e.name == CREATED || e.name == UPDATED) && Complete(e)
  }

  function Normalized(rule: Rule, app: App, cluster: string): Rule {
    Rule(rule.application,
         if rule.namespace == "" then app.key.namespace else rule.namespace,
         if rule.cluster == "" then cluster else rule.cluster)
  }

  predicate Matches(rule: Rule, app: App, cluster: string, p: Producer) {
    Normalized(rule, app, cluster) == Rule(p.name, p.namespace, p.cluster)
  }

  predicate IsSelf(app: App, cluster: string, p: Producer) {
    app.key == Key(p.namespace, p.name) && cluster == p.cluster
  }

  predicate Lists(app: App, cluster: string, p: Producer) {
    exists rule :: rule in app.preAuthorized && Matches(rule, app, cluster, p)
  }

  predicate HasCurrentClientId(app: App, cluster: string, p: Producer) {
    && p.clientId != ""
    && app.assignedApps.Some?
    && exists a :: a in app.assignedApps.value && a.rule.Some? &&
                   Matches(a.rule.value, app, cluster, p) && a.clientId == p.clientId
  }

  predicate IsCandidate(app: App, cluster: string, p: Producer) {
    !IsSelf(app, cluster, p) && Lists(app, cluster, p) && !HasCurrentClientId(app, cluster, p)
  }

  function Marked(m: AnnotationMap, e: Event): AnnotationMap {
    Completion.Written(m, Completion.Request(EntryOf(e.app), e.id))
  }

  /** What one event does to the annotations of one app. */
  function Outcome(m: AnnotationMap, app: App, cluster: string, e: Event): AnnotationMap {
    if Propagated(e) && IsCandidate(app, cluster, e.app) then Marked(m, e) else m
  }

  // -------------------------------------------------- who is woken, and how

  /** The rule names the producer; without a namespace or a cluster, it is that of the app. */
  predicate IsAddressed(rule: Rule, app: App, cluster: string, p: Producer) {
    && rule.application == p.name
    && (if rule.namespace == "" then app.key.namespace else rule.namespace) == p.namespace
    && (if rule.cluster == "" then cluster else rule.cluster) == p.cluster
  }

  /** An event is for every app other than the producer that lists it, unless the app has been assigned its
      client ID. Only complete events of creation and update are for anyone. */
  predicate IsFor(e: Event, app: App, cluster: string) {
    && (e.name == "Created" || e.name == "Updated")
    && e.app.name != "" && e.app.namespace != "" && e.app.cluster != "" && e.app.clientId != ""
    && !(app.key.name == e.app.name && app.key.namespace == e.app.namespace && cluster == e.app.cluster)
    && (exists rule :: rule in app.preAuthorized && IsAddressed(rule, app, cluster, e.app))
    && !(app.assignedApps.Some? &&
         exists a :: a in app.assignedApps.value && a.rule.Some? && IsAddressed(a.rule.value, app, cluster, e.app) &&
                     a.clientId == e.app.clientId)
  }

  predicate EndsIn(s: string, entry: string) {
    s == entry || (|entry| < |s| && s[|s| - |entry| - 1..] == "," + entry)
  }

  /** The producer's entry is the last of the queue; whatever was queued is still there, and nothing else changes. */
  predicate IsWoken(before: AnnotationMap, after: AnnotationMap, e: Event) {
    var key, entry := "azure.nais.io/resync", e.app.cluster + ":" + e.app.namespace + ":" + e.app.name;
    && key in after && EndsIn(after[key], entry)
    && (key in before ==>
          after[key] == if ',' !in entry && EndsIn(before[key], entry) then before[key] else before[key] + "," + entry)
    && (key !in before ==> after[key] == entry)
    && after == before[key := after[key]]["nais.io/deploymentCorrelationID" := e.id]
  }

  lemma LastEntryExactly(s: string, entry: string)
    ensures LastEntry(s) == entry <==> ',' !in entry && EndsIn(s, entry)
  {
    var i := LastComma(s);
    if EndsIn(s, entry) && s != entry && ',' !in entry {
      var j := |s| - |entry| - 1;
      assert s[j] == ',' && s[j + 1..] == entry;
      assert forall x :: j < x < |s| ==> s[x] == s[j + 1..][x - j - 1] && s[x] in entry;
    }
    if i >= 0 && LastEntry(s) == entry {
      assert s[i..] == "," + entry;
    }
  }

  lemma MarkedIsWoken(m: AnnotationMap, e: Event)
    ensures IsWoken(m, Marked(m, e), e)
  {
    var entry := EntryOf(e.app);
    if RESYNCHRONIZE_KEY in m {
      LastEntryExactly(m[RESYNCHRONIZE_KEY], entry);
      AppendedEndsIn(m[RESYNCHRONIZE_KEY], entry);
    }
  }

  lemma AppendedEndsIn(s: string, entry: string)
    ensures EndsIn(Appended(s, entry), entry)
    ensures Appended(s, entry) == if ',' !in entry && EndsIn(s, entry) then s else s + "," + entry
  {
    LastEntryExactly(s, entry);
    assert Join([s, entry]) == s + "," + entry by {
      assert [s, entry][1..] == [entry];
    }
    assert (s + "," + entry)[|s|..] == "," + entry;
  }

  lemma CandidateExactly(app: App, cluster: string, e: Event)
    ensures IsFor(e, app, cluster) <==> Propagated(e) && IsCandidate(app, cluster, e.app)
  {
    forall rule
      ensures Matches(rule, app, cluster, e.app) <==> IsAddressed(rule, app, cluster, e.app)
    {
    }
  }

  lemma OutcomeExactly(m: AnnotationMap, app: App, cluster: string, e: Event)
    ensures if IsFor(e, app, cluster) then IsWoken(m, Outcome(m, app, cluster, e), e) else Outcome(m, app, cluster, e) == m
  {
    CandidateExactly(app, cluster, e);
    MarkedIsWoken(m, e);
  }

  // ------------------------------------------------------------- entries

  lemma {:induction false} SeparatorIsUnambiguous(a: string, b: string, x: string, y: string)
    requires ':' !in a && ':' !in b && a + ":" + x == b + ":" + y
    ensures a == b && x == y
    decreases |a|
  {
    var s, t := a + ":" + x, b + ":" + y;
    assert s[|a|] == ':' && t[|b|] == ':';
    assert forall i :: 0 <= i < |a| ==> s[i] == a[i] && a[i] in a;
    assert forall i :: 0 <= i < |b| ==> t[i] == b[i] && b[i] in b;
    assert |a| == |b|;
    assert a == s[..|a|] && b == t[..|b|];
    assert x == s[|a| + 1..] && y == t[|b| + 1..];
  }

  /** Different producers have different entries, as Kubernetes names have no colons. */
  lemma EntryDeterminesProducer(p: Producer, q: Producer)
    requires ':' !in p.cluster && ':' !in p.namespace && ':' !in q.cluster && ':' !in q.namespace
    requires EntryOf(p) == EntryOf(q)
    ensures p.cluster == q.cluster && p.namespace == q.namespace && p.name == q.name
  {
    assert EntryOf(p) == p.cluster + ":" + (p.namespace + ":" + p.name);
    assert EntryOf(q) == q.cluster + ":" + (q.namespace + ":" + q.name);
    SeparatorIsUnambiguous(p.cluster, q.cluster, p.namespace + ":" + p.name, q.namespace + ":" + q.name);
    SeparatorIsUnambiguous(p.namespace, q.namespace, p.name, q.name);
  }

  // ---------------------------------------------------------- operations

  method AlreadyAssigned(app: App, cluster: string, p: Producer) returns (r: bool)
    ensures r <==> HasCurrentClientId(app, cluster, p)
  {
    if p.clientId == "" || app.assignedApps.None? {
      return false;
    }
    var assignedApps := app.assignedApps.value;
    for i := 0 to |assignedApps|
      invariant forall j :: 0 <= j < i ==>
                  !(assignedApps[j].rule.Some? && Matches(assignedApps[j].rule.value, app, cluster, p) &&
                    assignedApps[j].clientId == p.clientId)
    {
      var a := assignedApps[i];
      if a.rule.None? {
        continue;
      }
      if Matches(a.rule.value, app, cluster, p) && a.clientId == p.clientId {
        return true;
      }
    }
    return false;
  }

  method NeedsResync(app: App, cluster: string, p: Producer) returns (r: bool)
    ensures r <==> IsCandidate(app, cluster, p)
  {
    if app.key.name == p.name && app.key.namespace == p.namespace && cluster == p.cluster {
      return false;
    }
    for i := 0 to |app.preAuthorized|
      invariant forall j :: 0 <= j < i ==> !Matches(app.preAuthorized[j], app, cluster, p)
    {
      if Matches(app.preAuthorized[i], app, cluster, p) {
        var already := AlreadyAssigned(app, cluster, p);
        return !already;
      }
    }
    return false;
  }

  /** The resources of one cluster. Every call may fail. */
  class Cluster {
    var apps: map<Key, App>
    var annotations: map<Key, AnnotationMap>

    ghost predicate Valid()
      reads this
    {
      apps.Keys == annotations.Keys && forall k :: k in apps ==> apps[k].key == k
    }

    method List() returns (r: Result<seq<App>>)
      requires Valid()
      ensures r.Ok? ==> forall i :: 0 <= i < |r.value| ==> r.value[i].key in apps && r.value[i] == apps[r.value[i].key]
      ensures r.Ok? ==> forall i, j :: 0 <= i < j < |r.value| ==> r.value[i].key != r.value[j].key
      ensures r.Ok? ==> forall k :: k in apps ==> apps[k] in r.value
    {
      var fails: bool := *;
      if fails {
        return Err;
      }
      var rest := apps.Keys;
      var listed: seq<App> := [];
      while rest != {}
        invariant rest <= apps.Keys
        invariant forall i :: 0 <= i < |listed| ==> listed[i].key in apps.Keys - rest && listed[i] == apps[listed[i].key]
        invariant forall i, j :: 0 <= i < j < |listed| ==> listed[i].key != listed[j].key
        invariant forall k :: k in apps.Keys - rest ==> apps[k] in listed
        decreases rest
      {
        var k :| k in rest;
        listed := listed + [apps[k]];
        rest := rest - {k};
      }
      return Ok(listed);
    }

    /** Marks the newest version of one resource. */
    method Resync(key: Key, e: Event) returns (r: Result<()>)
      requires Valid() && key in annotations
      modifies this`annotations
      ensures Valid()
      ensures annotations == old(annotations)[key := Marked(old(annotations[key]), e)] || (r.Err? && annotations == old(annotations))
    {
      var getFails: bool, updateFails: bool, applied: bool := *, *, *;
      if getFails {
        return Err;
      }
      var existing := new Object(Some(annotations[key]));
      existing.AddToAnnotation(RESYNCHRONIZE_KEY, EntryOf(e.app));
      existing.SetAnnotation(CORRELATION_ID_KEY, e.id);
      if !updateFails || applied {
        annotations := annotations[key := existing.Items()];
      }
      return if updateFails then Err else Ok(());
    }

    /** Marks exactly the candidates, or, on an error, some of them. */
    method Synchronize(e: Event, cluster: string) returns (r: Result<()>)
      requires Valid()
      modifies this`annotations
      ensures Valid()
      ensures forall k :: k in apps ==>
                annotations[k] == old(annotations)[k] || annotations[k] == Outcome(old(annotations)[k], apps[k], cluster, e)
      ensures r.Ok? ==> forall k :: k in apps ==> annotations[k] == Outcome(old(annotations)[k], apps[k], cluster, e)
      ensures forall k :: k in apps ==>
                annotations[k] == old(annotations)[k] || (IsFor(e, apps[k], cluster) && IsWoken(old(annotations)[k], annotations[k], e))
      ensures r.Ok? ==> forall k :: k in apps && IsFor(e, apps[k], cluster) ==> IsWoken(old(annotations)[k], annotations[k], e)
    {
      forall k | k in apps {
        OutcomeExactly(annotations[k], apps[k], cluster, e);
      }
      if e.name != CREATED && e.name != UPDATED {
        return Ok(());
      }
      if !Complete(e) {
        return Ok(());
      }
      var listed :- List();
      ghost var done;
      r, done := FanOut(e, cluster, listed);
      forall k | r.Ok? && k in apps
        ensures k in done
      {
        var j :| 0 <= j < |listed| && listed[j] == apps[k];
      }
    }

    /** Marks the candidates among the listed apps, or, on an error, among those that were done before. */
    method FanOut(e: Event, cluster: string, listed: seq<App>) returns (r: Result<()>, ghost done: set<Key>)
      requires Valid() && Propagated(e)
      requires forall i :: 0 <= i < |listed| ==> listed[i].key in apps && listed[i] == apps[listed[i].key]
      requires forall i, j :: 0 <= i < j < |listed| ==> listed[i].key != listed[j].key
      modifies this`annotations
      ensures Valid()
      ensures forall k :: k in apps ==>
                annotations[k] == if k in done then Outcome(old(annotations)[k], apps[k], cluster, e) else old(annotations)[k]
      ensures r.Ok? ==> forall j :: 0 <= j < |listed| ==> listed[j].key in done
    {
      ghost var target := map k | k in apps :: Outcome(annotations[k], apps[k], cluster, e);
      done := {};
      for i := 0 to |listed|
        invariant Valid()
        invariant forall j :: 0 <= j < i ==> listed[j].key in done
        invariant forall j :: i <= j < |listed| ==> listed[j].key !in done
        invariant forall k :: k in apps ==> annotations[k] == if k in done then target[k] else old(annotations)[k]
      {
        r := ResyncCandidate(e, cluster, listed[i], target[listed[i].key]);
        if annotations[listed[i].key] == target[listed[i].key] {
          done := done + {listed[i].key};
        }
        if r.Err? {
          return;
        }
      }
      return Ok(()), done;
    }

    method ResyncCandidate(e: Event, cluster: string, app: App, ghost target: AnnotationMap) returns (r: Result<()>)
      requires Valid() && app.key in annotations
      requires Propagated(e) && target == Outcome(annotations[app.key], app, cluster, e)
      modifies this`annotations
      ensures Valid()
      ensures annotations == old(annotations)[app.key := target] || (r.Err? && annotations == old(annotations))
    {
      var needs := NeedsResync(app, cluster, e.app);
      if needs {
        r := Resync(app.key, e);
      } else {
        assert annotations == annotations[app.key := target];
        r := Ok(());
      }
    }
  }
}
