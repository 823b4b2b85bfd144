/** The fan-out of an event, and the sweep, do what the protocol says of them. A call for an event lists the
    apps, and then marks those that the event is for; one that fails has marked some of them, and the event
    is to be repeated. A sweep marks the apps that the protocol has it mark. */
module Propagation {

  import opened Wrappers
  import opened Annotations
  import Cascade
  import Synchronizer
  import Strings
  import Sweeper

  // -------------------------------------------------------- abstraction

  function NameOf(k: Synchronizer.Key, cluster: string): Cascade.Name {
    Strings.QualifiedName(cluster, k.namespace, k.name)
  }

  function EventOf(e: Synchronizer.Event): Cascade.Event {
    Cascade.Event(Strings.QualifiedName(e.app.cluster, e.app.namespace, e.app.name), e.app.clientId)
  }

  function NamespaceOf(rule: Synchronizer.Rule, app: Synchronizer.App): string {
    if rule.namespace == "" then app.key.namespace else rule.namespace
  }

  function ClusterOf(rule: Synchronizer.Rule, cluster: string): string {
    if rule.cluster == "" then cluster else rule.cluster
  }

  /** The name of the app that a rule names. */
  function ListedName(rule: Synchronizer.Rule, app: Synchronizer.App, cluster: string): Cascade.Name {
    Strings.QualifiedName(ClusterOf(rule, cluster), NamespaceOf(rule, app), rule.application)
  }

  predicate IsAssignedAs(app: Synchronizer.App, cluster: string, p: Cascade.Name, id: Cascade.ClientId) {
    app.assignedApps.Some? &&
    exists a :: a in app.assignedApps.value && a.rule.Some? && ListedName(a.rule.value, app, cluster) == p && a.clientId == id
  }

  /** The protocol's view of one resource: what it lists, what of this its status has assigned, and its queue. */
  ghost predicate RepresentsApp(app: Synchronizer.App, m: AnnotationMap, cluster: string, a: Cascade.App) {
    && a.queue == Queue(m, "azure.nais.io/resync")
    && (forall p :: p in a.lists <==> exists rule :: rule in app.preAuthorized && ListedName(rule, app, cluster) == p)
    && (forall p, id :: p in a.lists ==>
          (IsAssignedAs(app, cluster, p, id) <==> p in Cascade.Assigned(a) && Cascade.Assigned(a)[p] == id))
  }

  predicate IsPlain(rule: Synchronizer.Rule, app: Synchronizer.App, cluster: string) {
    ':' !in NamespaceOf(rule, app) && ':' !in ClusterOf(rule, cluster)
  }

  /** Names in Kubernetes have no colons. */
  predicate HasPlainNames(app: Synchronizer.App, cluster: string) {
    && ':' !in app.key.namespace
    && (forall rule :: rule in app.preAuthorized ==> IsPlain(rule, app, cluster))
    && (app.assignedApps.Some? ==>
          forall a :: a in app.assignedApps.value && a.rule.Some? ==> IsPlain(a.rule.value, app, cluster))
  }

  ghost predicate Represents(apps: map<Synchronizer.Key, Synchronizer.App>, annotations: map<Synchronizer.Key, AnnotationMap>,
                             cluster: string, s: Cascade.State) {
    && ':' !in cluster && annotations.Keys == apps.Keys
    && (forall k :: k in apps ==> apps[k].key == k && HasPlainNames(apps[k], cluster))
    && (forall n :: n in s.apps <==> exists k :: k in apps && NameOf(k, cluster) == n)
    && (forall k :: k in apps ==> RepresentsApp(apps[k], annotations[k], cluster, s.apps[NameOf(k, cluster)]))
  }

  /** An event that the program emits: a creation or an update, of an app with a client ID. */
  predicate IsEmitted(e: Synchronizer.Event) {
    && (e.name == "Created" || e.name == "Updated")
    && e.app.name != "" && e.app.namespace != "" && e.app.cluster != "" && e.app.clientId != ""
    && ':' !in e.app.cluster && ':' !in e.app.namespace
  }

  // --------------------------------------------------------------- names

  lemma SameQualifiedName(c: string, n: string, a: string, c': string, n': string, a': string)
    requires ':' !in c && ':' !in n && ':' !in c' && ':' !in n'
    ensures Strings.QualifiedName(c, n, a) == Strings.QualifiedName(c', n', a') <==> c == c' && n == n' && a == a'
  {
    if Strings.QualifiedName(c, n, a) == Strings.QualifiedName(c', n', a') {
      Synchronizer.EntryDeterminesProducer(Synchronizer.Producer(a, n, c, ""), Synchronizer.Producer(a', n', c', ""));
    }
  }

  lemma AddressedExactly(rule: Synchronizer.Rule, app: Synchronizer.App, cluster: string, e: Synchronizer.Event)
    requires IsPlain(rule, app, cluster) && IsEmitted(e)
    ensures Synchronizer.IsAddressed(rule, app, cluster, e.app) <==> ListedName(rule, app, cluster) == EventOf(e).producer
  {
    SameQualifiedName(ClusterOf(rule, cluster), NamespaceOf(rule, app), rule.application, e.app.cluster, e.app.namespace, e.app.name);
  }

  /** The protocol has the same idea of whom an event is for. */
  lemma ForExactly(app: Synchronizer.App, m: AnnotationMap, cluster: string, a: Cascade.App, e: Synchronizer.Event)
    requires RepresentsApp(app, m, cluster, a) && HasPlainNames(app, cluster) && ':' !in cluster && IsEmitted(e)
    ensures Synchronizer.IsFor(e, app, cluster) <==>
            NameOf(app.key, cluster) != EventOf(e).producer && Cascade.NeedsResync(a, EventOf(e))
  {
    var p, id := EventOf(e).producer, e.app.clientId;
    SameQualifiedName(cluster, app.key.namespace, app.key.name, e.app.cluster, e.app.namespace, e.app.name);
    forall rule | IsPlain(rule, app, cluster)
      ensures Synchronizer.IsAddressed(rule, app, cluster, e.app) <==> ListedName(rule, app, cluster) == p
    {
      AddressedExactly(rule, app, cluster, e);
    }
    assert p in a.lists <==> exists rule :: rule in app.preAuthorized && ListedName(rule, app, cluster) == p;
    assert IsAssignedAs(app, cluster, p, id) <==>
           app.assignedApps.Some? &&
           exists x :: x in app.assignedApps.value && x.rule.Some? &&
                       Synchronizer.IsAddressed(x.rule.value, app, cluster, e.app) && x.clientId == id;
  }

  // --------------------------------------------------------------- marks

  /** One mark for each of the names. */
  ghost predicate AreMarks(steps: seq<Cascade.Step>, e: Cascade.Event, names: set<Cascade.Name>) {
    && |steps| == |names|
    && (forall n :: n in names ==> Cascade.Mark(n, e) in steps)
    && (forall step :: step in steps ==> step.Mark? && step.event == e && step.app in names)
  }

  function Marked(a: Cascade.App, e: Cascade.Event): Cascade.App {
    a.(incoming := a.incoming - multiset{e}, queue := Enqueue(a.queue, e.producer))
  }

  lemma FirstStep(s: Cascade.State, step: Cascade.Step, steps: seq<Cascade.Step>, s': Cascade.State)
    requires Cascade.Enabled(s, step) && Cascade.Run(Cascade.Apply(s, step), steps, s')
    ensures Cascade.Run(s, [step] + steps, s')
  {
    assert ([step] + steps)[1..] == steps;
  }

  /** A step, and whatever comes after it. */
  lemma StepFirst(s: Cascade.State, step: Cascade.Step, next: Cascade.State)
    requires Cascade.Enabled(s, step) && Cascade.Apply(s, step) == next
    ensures forall steps, s' :: Cascade.Run(next, steps, s') ==> Cascade.Run(s, [step] + steps, s')
  {
    forall steps, s' | Cascade.Run(next, steps, s')
      ensures Cascade.Run(s, [step] + steps, s')
    {
      FirstStep(s, step, steps, s');
    }
  }

  /** One mark, and whatever comes after it. */
  lemma MarkFirst(s: Cascade.State, e: Cascade.Event, n: Cascade.Name) returns (next: Cascade.State)
    requires n in s.apps && e in s.apps[n].incoming
    ensures next == s.(apps := s.apps[n := Marked(s.apps[n], e)], missed := next.missed)
    ensures forall steps, s' :: Cascade.Run(next, steps, s') ==> Cascade.Run(s, [Cascade.Mark(n, e)] + steps, s')
  {
    next := Cascade.Apply(s, Cascade.Mark(n, e));
    StepFirst(s, Cascade.Mark(n, e), next);
  }

  /** The apps of the names are marked, and nothing else has changed but what is missed. */
  ghost predicate AllMarked(s: Cascade.State, s': Cascade.State, e: Cascade.Event, names: set<Cascade.Name>) {
    && s' == s.(apps := s'.apps, missed := s'.missed) && s'.apps.Keys == s.apps.Keys
    && forall n :: n in s.apps ==> s'.apps[n] == if n in names then Marked(s.apps[n], e) else s.apps[n]
  }

  lemma OneMoreMarked(s: Cascade.State, next: Cascade.State, s': Cascade.State, e: Cascade.Event, n: Cascade.Name, names: set<Cascade.Name>)
    requires n in s.apps && n in names && AllMarked(next, s', e, names - {n})
    requires next == s.(apps := s.apps[n := Marked(s.apps[n], e)], missed := next.missed)
    ensures AllMarked(s, s', e, names)
  {
  }

  lemma OneMoreMark(steps: seq<Cascade.Step>, e: Cascade.Event, n: Cascade.Name, names: set<Cascade.Name>)
    requires n in names && AreMarks(steps, e, names - {n})
    ensures AreMarks([Cascade.Mark(n, e)] + steps, e, names)
  {
  }

  /** The marks of some apps, taken one after the other. */
  lemma {:induction false} MarkAll(s: Cascade.State, e: Cascade.Event, names: set<Cascade.Name>)
    returns (steps: seq<Cascade.Step>, s': Cascade.State)
    requires forall n :: n in names ==> n in s.apps && e in s.apps[n].incoming
    ensures Cascade.Run(s, steps, s') && AreMarks(steps, e, names) && AllMarked(s, s', e, names)
    decreases names
  {
    if names == {} {
      return [], s;
    }
    var n :| n in names;
    var next := MarkFirst(s, e, n);
    var others;
    others, s' := MarkAll(next, e, names - {n});
    OneMoreMarked(s, next, s', e, n, names);
    OneMoreMark(others, e, n, names);
    steps := [Cascade.Mark(n, e)] + others;
  }

  // ------------------------------------------------------------- the fan-out

  /** The names of the resources that have been marked. */
  function NamesOf(keys: set<Synchronizer.Key>, cluster: string): set<Cascade.Name> {
    set k | k in keys :: NameOf(k, cluster)
  }

  lemma DifferentNames(apps: map<Synchronizer.Key, Synchronizer.App>, cluster: string, k: Synchronizer.Key, k': Synchronizer.Key)
    requires ':' !in cluster && forall k :: k in apps ==> apps[k].key == k && HasPlainNames(apps[k], cluster)
    requires k in apps && k' in apps && k != k'
    ensures NameOf(k, cluster) != NameOf(k', cluster)
  {
    SameQualifiedName(cluster, k.namespace, k.name, cluster, k'.namespace, k'.name);
  }

  /** A mark of the resource is one of its view. */
  lemma MarkedIsMarked(app: Synchronizer.App, m: AnnotationMap, m': AnnotationMap, cluster: string, a: Cascade.App, a': Cascade.App,
                       e: Synchronizer.Event)
    requires RepresentsApp(app, m, cluster, a) && m' == Synchronizer.Marked(m, e)
    requires a' == a.(queue := Enqueue(a.queue, EventOf(e).producer), incoming := a'.incoming)
    ensures RepresentsApp(app, m', cluster, a')
  {
    AddRefinesEnqueue(m, RESYNCHRONIZE_KEY, EventOf(e).producer);
    assert forall p :: p in Cascade.Assigned(a') <==> p in Cascade.Assigned(a);
  }

  lemma SameViewOfSame(app: Synchronizer.App, m: AnnotationMap, cluster: string, a: Cascade.App, a': Cascade.App)
    requires RepresentsApp(app, m, cluster, a) && a' == a.(incoming := a'.incoming)
    ensures RepresentsApp(app, m, cluster, a')
  {
    assert forall p :: p in Cascade.Assigned(a') <==> p in Cascade.Assigned(a);
  }

  /** What a call has made of the annotations: some of those that the event is for have been marked. */
  ghost predicate HasMarked(apps: map<Synchronizer.Key, Synchronizer.App>, before: map<Synchronizer.Key, AnnotationMap>,
                            after: map<Synchronizer.Key, AnnotationMap>, cluster: string, e: Synchronizer.Event, done: set<Synchronizer.Key>) {
    && before.Keys == after.Keys == apps.Keys && done <= apps.Keys
    && (forall k :: k in done ==> Synchronizer.IsFor(e, apps[k], cluster) && after[k] == Synchronizer.Marked(before[k], e))
    && (forall k :: k in apps && k !in done ==> after[k] == before[k])
  }

  /** What it comes to in the protocol: the event is listed, and the marks of those are taken; the others
      are still on their way. */
  ghost predicate IsFannedOut(apps: map<Synchronizer.Key, Synchronizer.App>, cluster: string, e: Synchronizer.Event,
                              done: set<Synchronizer.Key>, s: Cascade.State, s': Cascade.State) {
    && s' == s.(unlisted := s.unlisted - multiset{EventOf(e)}, apps := s'.apps, missed := s'.missed)
    && s'.apps.Keys == s.apps.Keys
    && forall k :: k in apps && NameOf(k, cluster) in s.apps ==>
         var a, a' := s.apps[NameOf(k, cluster)], s'.apps[NameOf(k, cluster)];
         && a' == a.(incoming := a'.incoming, queue := a'.queue)
         && a'.queue == (if k in done then Enqueue(a.queue, EventOf(e).producer) else a.queue)
         && a'.incoming == if Synchronizer.IsFor(e, apps[k], cluster) && k !in done then a.incoming + multiset{EventOf(e)} else a.incoming
  }

  /** The event has been listed: its marks are on their way. */
  ghost predicate IsListed(apps: map<Synchronizer.Key, Synchronizer.App>, cluster: string, e: Synchronizer.Event,
                           s: Cascade.State, listed: Cascade.State) {
    && listed == s.(unlisted := s.unlisted - multiset{EventOf(e)}, apps := listed.apps)
    && listed.apps.Keys == s.apps.Keys
    && forall k :: k in apps && NameOf(k, cluster) in s.apps ==>
         var a, a' := s.apps[NameOf(k, cluster)], listed.apps[NameOf(k, cluster)];
         a' == if Synchronizer.IsFor(e, apps[k], cluster) then a.(incoming := a.incoming + multiset{EventOf(e)}) else a
  }

  lemma AppliedIsListed(apps: map<Synchronizer.Key, Synchronizer.App>, cluster: string, e: Synchronizer.Event, s: Cascade.State)
    requires EventOf(e) in s.unlisted
    requires forall k :: k in apps && NameOf(k, cluster) in s.apps ==>
               (Synchronizer.IsFor(e, apps[k], cluster) <==>
                NameOf(k, cluster) != EventOf(e).producer && Cascade.NeedsResync(s.apps[NameOf(k, cluster)], EventOf(e)))
    ensures IsListed(apps, cluster, e, s, Cascade.Apply(s, Cascade.List(EventOf(e))))
  {
  }

  lemma ListFirst(apps: map<Synchronizer.Key, Synchronizer.App>, annotations: map<Synchronizer.Key, AnnotationMap>, cluster: string,
                  e: Synchronizer.Event, s: Cascade.State)
    returns (listed: Cascade.State)
    requires Represents(apps, annotations, cluster, s) && IsEmitted(e) && EventOf(e) in s.unlisted
    ensures IsListed(apps, cluster, e, s, listed)
    ensures forall steps, s' :: Cascade.Run(listed, steps, s') ==> Cascade.Run(s, [Cascade.List(EventOf(e))] + steps, s')
  {
    forall k | k in apps && NameOf(k, cluster) in s.apps
      ensures Synchronizer.IsFor(e, apps[k], cluster) <==>
              NameOf(k, cluster) != EventOf(e).producer && Cascade.NeedsResync(s.apps[NameOf(k, cluster)], EventOf(e))
    {
      ForExactly(apps[k], annotations[k], cluster, s.apps[NameOf(k, cluster)], e);
    }
    AppliedIsListed(apps, cluster, e, s);
    listed := Cascade.Apply(s, Cascade.List(EventOf(e)));
    StepFirst(s, Cascade.List(EventOf(e)), listed);
  }

  lemma NamedExactly(apps: map<Synchronizer.Key, Synchronizer.App>, cluster: string, done: set<Synchronizer.Key>)
    requires ':' !in cluster && forall k :: k in apps ==> apps[k].key == k && HasPlainNames(apps[k], cluster)
    requires done <= apps.Keys
    ensures forall k :: k in apps ==> (NameOf(k, cluster) in NamesOf(done, cluster) <==> k in done)
  {
    forall k | k in apps && k !in done
      ensures NameOf(k, cluster) !in NamesOf(done, cluster)
    {
      forall d | d in done
        ensures NameOf(d, cluster) != NameOf(k, cluster)
      {
        DifferentNames(apps, cluster, d, k);
      }
    }
  }

  lemma MarkOfListed(a: Cascade.App, e: Cascade.Event)
    ensures Marked(a.(incoming := a.incoming + multiset{e}), e) == a.(queue := Enqueue(a.queue, e.producer))
  {
    assert a.incoming + multiset{e} - multiset{e} == a.incoming;
  }

  lemma ListedAndMarked(apps: map<Synchronizer.Key, Synchronizer.App>, cluster: string, e: Synchronizer.Event, done: set<Synchronizer.Key>,
                        s: Cascade.State, listed: Cascade.State, s': Cascade.State)
    requires IsListed(apps, cluster, e, s, listed) && AllMarked(listed, s', EventOf(e), NamesOf(done, cluster))
    requires forall k :: k in apps ==> (NameOf(k, cluster) in NamesOf(done, cluster) <==> k in done)
    requires forall k :: k in done ==> k in apps && Synchronizer.IsFor(e, apps[k], cluster)
    ensures IsFannedOut(apps, cluster, e, done, s, s')
  {
    forall k | k in apps && NameOf(k, cluster) in s.apps {
      MarkOfListed(s.apps[NameOf(k, cluster)], EventOf(e));
    }
  }

  lemma FanOutRefines(apps: map<Synchronizer.Key, Synchronizer.App>, before: map<Synchronizer.Key, AnnotationMap>,
                      after: map<Synchronizer.Key, AnnotationMap>, cluster: string, e: Synchronizer.Event, done: set<Synchronizer.Key>,
                      s: Cascade.State)
    returns (steps: seq<Cascade.Step>, s': Cascade.State)
    requires Represents(apps, before, cluster, s) && IsEmitted(e) && EventOf(e) in s.unlisted
    requires HasMarked(apps, before, after, cluster, e, done)
    ensures Cascade.Run(s, [Cascade.List(EventOf(e))] + steps, s') && AreMarks(steps, EventOf(e), NamesOf(done, cluster))
    ensures IsFannedOut(apps, cluster, e, done, s, s')
  {
    var listed := ListFirst(apps, before, cluster, e, s);
    NamedExactly(apps, cluster, done);
    MarksAreThere(apps, cluster, e, done, s, listed);
    steps, s' := MarkAll(listed, EventOf(e), NamesOf(done, cluster));
    ListedAndMarked(apps, cluster, e, done, s, listed, s');
  }

  lemma MarksAreThere(apps: map<Synchronizer.Key, Synchronizer.App>, cluster: string, e: Synchronizer.Event, done: set<Synchronizer.Key>,
                      s: Cascade.State, listed: Cascade.State)
    requires IsListed(apps, cluster, e, s, listed)
    requires forall k :: k in done ==> k in apps && NameOf(k, cluster) in s.apps && Synchronizer.IsFor(e, apps[k], cluster)
    ensures forall n :: n in NamesOf(done, cluster) ==> n in listed.apps && EventOf(e) in listed.apps[n].incoming
  {
  }

  lemma StillRepresents(apps: map<Synchronizer.Key, Synchronizer.App>, before: map<Synchronizer.Key, AnnotationMap>,
                        after: map<Synchronizer.Key, AnnotationMap>, cluster: string, e: Synchronizer.Event, done: set<Synchronizer.Key>,
                        s: Cascade.State, s': Cascade.State)
    requires Represents(apps, before, cluster, s) && HasMarked(apps, before, after, cluster, e, done)
    requires IsFannedOut(apps, cluster, e, done, s, s')
    ensures Represents(apps, after, cluster, s')
  {
    forall k | k in apps
      ensures RepresentsApp(apps[k], after[k], cluster, s'.apps[NameOf(k, cluster)])
    {
      var a, a' := s.apps[NameOf(k, cluster)], s'.apps[NameOf(k, cluster)];
      if k in done {
        MarkedIsMarked(apps[k], before[k], after[k], cluster, a, a', e);
      } else {
        SameViewOfSame(apps[k], before[k], cluster, a, a');
      }
    }
  }

  function Done(apps: map<Synchronizer.Key, Synchronizer.App>, before: map<Synchronizer.Key, AnnotationMap>,
                after: map<Synchronizer.Key, AnnotationMap>, cluster: string, e: Synchronizer.Event): set<Synchronizer.Key>
    requires before.Keys == after.Keys == apps.Keys
  {
    set k | k in apps && Synchronizer.IsFor(e, apps[k], cluster) && after[k] == Synchronizer.Marked(before[k], e)
  }

  lemma CallHasMarked(apps: map<Synchronizer.Key, Synchronizer.App>, before: map<Synchronizer.Key, AnnotationMap>,
                      after: map<Synchronizer.Key, AnnotationMap>, cluster: string, e: Synchronizer.Event)
    requires before.Keys == after.Keys == apps.Keys
    requires forall k :: k in apps ==> after[k] == before[k] || after[k] == Synchronizer.Outcome(before[k], apps[k], cluster, e)
    ensures HasMarked(apps, before, after, cluster, e, Done(apps, before, after, cluster, e))
    ensures (forall k :: k in apps ==> after[k] == Synchronizer.Outcome(before[k], apps[k], cluster, e)) ==>
              Done(apps, before, after, cluster, e) == set k | k in apps && Synchronizer.IsFor(e, apps[k], cluster)
  {
    forall k | k in apps
      ensures Synchronizer.Outcome(before[k], apps[k], cluster, e) ==
              if Synchronizer.IsFor(e, apps[k], cluster) then Synchronizer.Marked(before[k], e) else before[k]
    {
      Synchronizer.CandidateExactly(apps[k], cluster, e);
    }
  }

  /** A call for an event that is on its way: it takes the listing of the event, and then one mark for each
      of the apps that it has marked. Without an error, no mark is left on its way. */
  method Synchronize(c: Synchronizer.Cluster, e: Synchronizer.Event, cluster: string, ghost s: Cascade.State)
    returns (r: Result<()>, ghost done: set<Synchronizer.Key>, ghost steps: seq<Cascade.Step>, ghost s': Cascade.State)
    requires c.Valid() && Represents(c.apps, c.annotations, cluster, s) && IsEmitted(e) && EventOf(e) in s.unlisted
    modifies c`annotations
    ensures c.Valid() && Represents(c.apps, c.annotations, cluster, s')
    ensures Cascade.Run(s, [Cascade.List(EventOf(e))] + steps, s') && AreMarks(steps, EventOf(e), NamesOf(done, cluster))
    ensures IsFannedOut(c.apps, cluster, e, done, s, s')
    ensures Cascade.Ok(s) && Cascade.NoneForgotten(s) ==> Cascade.Ok(s') && Cascade.NoneForgotten(s')
    ensures r.Ok? ==> done == set k | k in c.apps && Synchronizer.IsFor(e, c.apps[k], cluster)
  {
    ghost var before := c.annotations;
    r := c.Synchronize(e, cluster);
    done := Done(c.apps, before, c.annotations, cluster, e);
    CallHasMarked(c.apps, before, c.annotations, cluster, e);
    steps, s' := FanOutRefines(c.apps, before, c.annotations, cluster, e, done, s);
    StillRepresents(c.apps, before, c.annotations, cluster, e, done, s, s');
    if Cascade.Ok(s) && Cascade.NoneForgotten(s) {
      Cascade.RunKeepsInvariant(s, [Cascade.List(EventOf(e))] + steps, s');
    }
  }

  /** Of the marks that are on their way, only some of this event's have come since. */
  predicate OnlyMarksCame(s: Cascade.State, s': Cascade.State, e: Cascade.Event) {
    && s'.apps.Keys == s.apps.Keys
    && forall n :: n in s.apps ==>
         s'.apps[n].incoming == s.apps[n].incoming || s'.apps[n].incoming == s.apps[n].incoming + multiset{e}
  }

  lemma MarksCanBeLost(s: Cascade.State, s': Cascade.State, e: Cascade.Event)
    requires OnlyMarksCame(s, s', e)
    ensures Cascade.LosesMarks(s', e, map n | n in s.apps :: s.apps[n].incoming)
  {
  }

  lemma OnlyItsMarks(apps: map<Synchronizer.Key, Synchronizer.App>, cluster: string, e: Synchronizer.Event,
                     done: set<Synchronizer.Key>, s: Cascade.State, s': Cascade.State)
    requires IsFannedOut(apps, cluster, e, done, s, s')
    requires forall n :: n in s.apps ==> exists k :: k in apps && NameOf(k, cluster) == n
    ensures OnlyMarksCame(s, s', EventOf(e))
  {
    forall n | n in s.apps
      ensures s'.apps[n].incoming == s.apps[n].incoming || s'.apps[n].incoming == s.apps[n].incoming + multiset{EventOf(e)}
    {
      var k :| k in apps && NameOf(k, cluster) == n;
    }
  }

  function RelistOf(s: Cascade.State, e: Cascade.Event): Cascade.Step {
    Cascade.Relist(e, map n | n in s.apps :: s.apps[n].incoming)
  }

  lemma RelistedExactly(s: Cascade.State, s': Cascade.State, e: Cascade.Event)
    requires OnlyMarksCame(s, s', e) && e in s'.emitted
    ensures Cascade.Enabled(s', RelistOf(s, e))
    ensures var again := Cascade.Apply(s', RelistOf(s, e));
            && again == s'.(unlisted := s'.unlisted + multiset{e}, apps := again.apps)
            && again.apps.Keys == s.apps.Keys
            && forall n :: n in s.apps ==> again.apps[n] == s'.apps[n].(incoming := s.apps[n].incoming)
  {
    MarksCanBeLost(s, s', e);
  }

  /** After an error, the event is repeated: what is on its way is as it was before the call. */
  lemma FailedIsRepeated(apps: map<Synchronizer.Key, Synchronizer.App>, annotations: map<Synchronizer.Key, AnnotationMap>, cluster: string,
                         e: Synchronizer.Event, done: set<Synchronizer.Key>, s: Cascade.State, s': Cascade.State)
    returns (again: Cascade.State)
    requires Represents(apps, annotations, cluster, s) && Cascade.EventsOk(s) && EventOf(e) in s.unlisted
    requires IsFannedOut(apps, cluster, e, done, s, s')
    ensures Cascade.Enabled(s', RelistOf(s, EventOf(e))) && again == Cascade.Apply(s', RelistOf(s, EventOf(e)))
    ensures again == s'.(unlisted := s.unlisted, apps := again.apps)
    ensures again.apps.Keys == s.apps.Keys
    ensures forall n :: n in s.apps ==> again.apps[n] == s'.apps[n].(incoming := s.apps[n].incoming)
  {
    OnlyItsMarks(apps, cluster, e, done, s, s');
    RelistedExactly(s, s', EventOf(e));
    again := Cascade.Apply(s', RelistOf(s, EventOf(e)));
    assert s.unlisted - multiset{EventOf(e)} + multiset{EventOf(e)} == s.unlisted;
  }

  // --------------------------------------------------------------- the sweep

  /** The protocol's view of a resource that is swept: of what it lists, the status has some assigned, and
      the rest unassigned; what it lists in other clusters is foreign. */
  ghost predicate IsSeenAs(app: Sweeper.App, cluster: string, tenant: string, a: Cascade.App, foreign: set<Cascade.Name>) {
    && a.queue == Queue(app.annotations, "azure.nais.io/resync")
    && (a.status.Some? <==> app.status.Some? && app.tenant == tenant)
    && (a.status.Some? ==>
          && (forall p :: p in a.lists && p !in a.status.value <==>
                          exists e :: e in app.status.value.unassignedApps && e.rule.Some? && Sweeper.UniqueName(e.rule.value) == p)
          && (forall p :: p in a.lists && p in foreign && p in a.status.value ==>
                exists e :: e in app.status.value.assignedApps && IsForeignEntry(e, cluster, p) && e.clientId == a.status.value[p])
          && (forall p, e :: e in app.status.value.assignedApps && IsForeignEntry(e, cluster, p) ==>
                p in a.lists && p in foreign && p in a.status.value && a.status.value[p] == e.clientId))
  }

  predicate IsForeignEntry(e: Sweeper.Entry, cluster: string, p: Cascade.Name) {
    e.rule.Some? && e.rule.value.cluster != cluster && Sweeper.UniqueName(e.rule.value) == p
  }

  /** The protocol has the same idea of whom the sweep is for. */
  lemma SweepableExactly(app: Sweeper.App, cluster: string, tenant: string, a: Cascade.App, d: Cascade.ClientIds, foreign: set<Cascade.Name>)
    requires IsSeenAs(app, cluster, tenant, a, foreign)
    ensures Sweeper.IsLagging(app, cluster, tenant, d) <==> Cascade.Sweepable(a, d, foreign)
  {
    if Sweeper.IsLagging(app, cluster, tenant, d) {
      if e :| e in app.status.value.unassignedApps && e.rule.Some? && Sweeper.UniqueName(e.rule.value) in d {
        assert Sweeper.UniqueName(e.rule.value) in a.lists;
      } else {
        var e :| e in app.status.value.assignedApps && e.rule.Some? && e.rule.value.cluster != cluster &&
                 Sweeper.UniqueName(e.rule.value) in d && d[Sweeper.UniqueName(e.rule.value)] != e.clientId;
        assert IsForeignEntry(e, cluster, Sweeper.UniqueName(e.rule.value));
      }
    }
    if Cascade.Sweepable(a, d, foreign) {
      var p :| p in a.lists && p in d && (p !in a.status.value || (p in foreign && a.status.value[p] != d[p]));
    }
  }

  ghost predicate AreSweeps(steps: seq<Cascade.Step>, names: set<Cascade.Name>) {
    && |steps| == |names|
    && (forall n :: n in names ==> Cascade.Sweep(n) in steps)
    && (forall step :: step in steps ==> step.Sweep? && step.app in names)
  }

  ghost predicate AllSwept(s: Cascade.State, s': Cascade.State, names: set<Cascade.Name>) {
    && s' == s.(apps := s'.apps) && s'.apps.Keys == s.apps.Keys
    && forall n :: n in s.apps ==> s'.apps[n] == if n in names then s.apps[n].(queue := ["sweeper"]) else s.apps[n]
  }

  lemma SweepFirst(s: Cascade.State, n: Cascade.Name) returns (next: Cascade.State)
    requires n in s.apps && Cascade.Sweepable(s.apps[n], s.directory, s.foreign)
    ensures next == s.(apps := s.apps[n := s.apps[n].(queue := ["sweeper"])])
    ensures forall steps, s' :: Cascade.Run(next, steps, s') ==> Cascade.Run(s, [Cascade.Sweep(n)] + steps, s')
  {
    next := Cascade.Apply(s, Cascade.Sweep(n));
    StepFirst(s, Cascade.Sweep(n), next);
  }

  lemma OneMoreSwept(s: Cascade.State, next: Cascade.State, s': Cascade.State, steps: seq<Cascade.Step>,
                     n: Cascade.Name, names: set<Cascade.Name>)
    requires n in s.apps && n in names && AllSwept(next, s', names - {n}) && AreSweeps(steps, names - {n})
    requires next == s.(apps := s.apps[n := s.apps[n].(queue := ["sweeper"])])
    ensures AllSwept(s, s', names) && AreSweeps([Cascade.Sweep(n)] + steps, names)
  {
  }

  /** The sweeps of some apps, taken one after the other. */
  lemma {:induction false} SweepAll(s: Cascade.State, names: set<Cascade.Name>) returns (steps: seq<Cascade.Step>, s': Cascade.State)
    requires forall n :: n in names ==> n in s.apps && Cascade.Sweepable(s.apps[n], s.directory, s.foreign)
    ensures Cascade.Run(s, steps, s') && AreSweeps(steps, names) && AllSwept(s, s', names)
    decreases names
  {
    if names == {} {
      return [], s;
    }
    var n :| n in names;
    var next := SweepFirst(s, n);
    var others;
    others, s' := SweepAll(next, names - {n});
    OneMoreSwept(s, next, s', others, n, names);
    steps := [Cascade.Sweep(n)] + others;
  }

  /** The resources as they were listed are as they are now. */
  ghost predicate AreSeen(listed: seq<Sweeper.App>, live: map<Synchronizer.Key, AnnotationMap>, cluster: string, tenant: string,
                          s: Cascade.State) {
    && ':' !in cluster
    && (forall k :: k in live ==> ':' !in k.namespace)
    && (forall app :: app in listed ==>
          && app.key in live && live[app.key] == app.annotations && NameOf(app.key, cluster) in s.apps
          && IsSeenAs(app, cluster, tenant, s.apps[NameOf(app.key, cluster)], s.foreign))
  }

  function Changed(before: map<Synchronizer.Key, AnnotationMap>, after: map<Synchronizer.Key, AnnotationMap>): set<Synchronizer.Key>
    requires after.Keys == before.Keys
  {
    set k | k in before && after[k] != before[k]
  }

  /** Whatever was marked could be swept; and without a failure, whatever can be was. */
  lemma ChangedAreSweepable(listed: seq<Sweeper.App>, before: map<Synchronizer.Key, AnnotationMap>, after: map<Synchronizer.Key, AnnotationMap>,
                            cluster: string, tenant: string, s: Cascade.State, complete: bool)
    requires AreSeen(listed, before, cluster, tenant, s)
    requires Sweeper.SweptAsLagging(before, after, listed, cluster, tenant, s.directory, complete)
    ensures forall n :: n in NamesOf(Changed(before, after), cluster) ==>
              n in s.apps && Cascade.Sweepable(s.apps[n], s.directory, s.foreign)
    ensures complete ==> forall app :: app in listed && Cascade.Sweepable(s.apps[NameOf(app.key, cluster)], s.directory, s.foreign) ==>
              app.key in Changed(before, after)
  {
    forall app | app in listed
      ensures Sweeper.IsLagging(app, cluster, tenant, s.directory) <==>
              Cascade.Sweepable(s.apps[NameOf(app.key, cluster)], s.directory, s.foreign)
    {
      SweepableExactly(app, cluster, tenant, s.apps[NameOf(app.key, cluster)], s.directory, s.foreign);
    }
    forall k | k in Changed(before, after)
      ensures NameOf(k, cluster) in s.apps && Cascade.Sweepable(s.apps[NameOf(k, cluster)], s.directory, s.foreign)
    {
      var app :| app in listed && app.key == k && Sweeper.IsLagging(app, cluster, tenant, s.directory);
    }
  }

  lemma SweptQueues(listed: seq<Sweeper.App>, before: map<Synchronizer.Key, AnnotationMap>, after: map<Synchronizer.Key, AnnotationMap>,
                    cluster: string, tenant: string, s: Cascade.State, s': Cascade.State)
    requires AreSeen(listed, before, cluster, tenant, s) && after.Keys == before.Keys
    requires forall k :: k in after && after[k] != before[k] ==> after[k] == before[k]["azure.nais.io/resync" := "sweeper"]
    requires AllSwept(s, s', NamesOf(Changed(before, after), cluster))
    ensures forall app :: app in listed ==>
              s'.apps[NameOf(app.key, cluster)].queue == Queue(after[app.key], "azure.nais.io/resync")
  {
    forall app | app in listed
      ensures s'.apps[NameOf(app.key, cluster)].queue == Queue(after[app.key], "azure.nais.io/resync")
    {
      SplitOfPlain("sweeper");
      if app.key !in Changed(before, after) && NameOf(app.key, cluster) in NamesOf(Changed(before, after), cluster) {
        var k :| k in Changed(before, after) && NameOf(k, cluster) == NameOf(app.key, cluster);
        SameQualifiedName(cluster, k.namespace, k.name, cluster, app.key.namespace, app.key.name);
        assert false;
      }
    }
  }

  /** A sweep of resources that have not changed since they were listed, with a cache that is up to date: it
      takes one step for each of those that it has marked, and without a failure, these are all that can be swept. */
  method Sweep(live: Sweeper.Live, cache: Sweeper.Cache, listed: seq<Sweeper.App>, cluster: string, tenant: string,
               directory: map<string, string>, ghost s: Cascade.State)
    returns (ghost marked: set<Synchronizer.Key>, ghost steps: seq<Cascade.Step>, ghost s': Cascade.State)
    requires cache.Valid() && Sweeper.Agrees(cache.items, directory) && directory == s.directory
    requires AreSeen(listed, live.annotations, cluster, tenant, s)
    modifies live, cache
    ensures Cascade.Run(s, steps, s') && AreSweeps(steps, NamesOf(marked, cluster)) && AllSwept(s, s', NamesOf(marked, cluster))
    ensures forall app :: app in listed ==>
              && app.key in live.annotations
              && s'.apps[NameOf(app.key, cluster)].queue == Queue(live.annotations[app.key], "azure.nais.io/resync")
    ensures cache.failures == old(cache.failures) && live.failures == old(live.failures) ==>
              forall app :: app in listed && Cascade.Sweepable(s.apps[NameOf(app.key, cluster)], s.directory, s.foreign) ==>
                app.key in marked
  {
    ghost var before := live.annotations;
    Sweeper.Sweep(live, cache, listed, cluster, tenant, directory);
    marked := Changed(before, live.annotations);
    ChangedAreSweepable(listed, before, live.annotations, cluster, tenant, s,
                        cache.failures == old(cache.failures) && live.failures == old(live.failures));
    steps, s' := SweepAll(s, NamesOf(marked, cluster));
    SweptQueues(listed, before, live.annotations, cluster, tenant, s, s');
  }
}
