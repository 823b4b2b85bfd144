/** The resynchronization cascade, as a protocol between the reconciles of the apps
    in one cluster, the fan-out of their events, and the periodic sweep.

    A reconcile is not atomic: it reads its queue, then the directory (and emits an
    event), then writes its status, then settles its annotations, and the steps of
    everything else may come in between. An app may be removed, and may be created anew,
    with another client ID and another spec; apps of other clusters come and go. */
module Cascade {

  import opened Wrappers
  import opened Sums
  import Annotations
  import Completion
  import Strings

  /** What an event calls its app, `cluster:namespace:name`. */
  type Name = string
  type ClientId = string
  type ClientIds = map<Name, ClientId>

  /** An app was created or updated, and had this client ID. */
  datatype Event = Event(producer: Name, clientId: ClientId)

  // --------------------------------------------------------------- state

  datatype Phase =
    | Idle
    | Begun(snapshot: seq<string>)
    | Synced(snapshot: seq<string>, read: ClientIds)
    | Reported(snapshot: seq<string>)

  datatype App = App(
    lists: set<Name>,                // normalized pre-authorized apps of the spec
    status: Option<ClientIds>,       // the assigned apps of the status, or None before the first report
    dirty: bool,                     // the spec's hash differs from the status
    queue: seq<string>,              // the resync annotation
    incoming: multiset<Event>,       // events whose mark is on its way
    phase: Phase)

  /** A consumer, and one of the producers that it lists. */
  datatype Pair = Pair(consumer: Name, producer: Name)

  datatype State = State(
    apps: map<Name, App>,
    directory: ClientIds,            // apps that exist, with a service principal
    foreign: set<Name>,              // names in other clusters
    unlisted: multiset<Event>,       // events that have yet to list the apps
    emitted: set<Event>,             // events that were ever emitted
    missed: set<Pair>)               // consumers that missed an event, and have read nothing since

  predicate Has(m: ClientIds, p: Name, d: ClientIds) {
    p in d && p in m && m[p] == d[p]
  }

  predicate Covers(lists: set<Name>, m: ClientIds, d: ClientIds) {
    forall p :: p in lists && p in d ==> Has(m, p, d)
  }

  function Assigned(app: App): ClientIds {
    if app.status.Some? then app.status.value else map[]
  }

  /** What the app last read from the directory. */
  function LastRead(app: App): ClientIds {
    if app.phase.Synced? then app.phase.read else Assigned(app)
  }

  // --------------------------------------------------------------- steps

  datatype Step =
    | Begin(app: Name)
    | Sync(app: Name, id: ClientId)
    | Report(app: Name)
    | Finish(app: Name)
    | List(event: Event)
    | Mark(app: Name, event: Event)
    | Sweep(app: Name)
    // failures: a reconcile breaks off, a fan-out is repeated, and an event or its marks are given up
    | Abort(app: Name)
    | Relist(event: Event, kept: map<Name, multiset<Event>>)
    | Drop(event: Event)
    | DropMarks(event: Event, kept: map<Name, multiset<Event>>)
    // a reconcile breaks off between the registration of its app and the event
    | Register(app: Name, id: ClientId)
    // a resource is deleted, with its app unless that is preserved, and a resource is created
    | Remove(app: Name, preserved: bool)
    | Create(app: Name, lists: set<Name>)
    // an app of another cluster gets a client ID, or is deleted
    | Elsewhere(name: Name, registered: Option<ClientId>)

  /** The steps that come from outside, and may be repeated without end. */
  predicate Disturbs(step: Step) {
    Fails(step) || step.Remove? || step.Create? || step.Elsewhere?
  }

  predicate Fails(step: Step) {
    step.Abort? || step.Relist? || step.Drop? || step.DropMarks? || step.Register?
  }

  /** Whether an event concerns an app that does not have the event's client ID. */
  predicate NeedsResync(app: App, e: Event) {
    e.producer in app.lists && !(e.producer in Assigned(app) && Assigned(app)[e.producer] == e.clientId)
  }

  /** The sweep leaves apps with a changed client ID in its own cluster to the events. */
  predicate Sweepable(app: App, d: ClientIds, foreign: set<Name>) {
    && app.status.Some?
    && app.queue == []
    && exists p :: p in app.lists && p in d &&
                   (p !in app.status.value || (p in foreign && app.status.value[p] != d[p]))
  }

  /** Whether an app by itself is ready for a step that changes nothing else. */
  predicate Ready(n: Name, app: App, step: Step, d: ClientIds, foreign: set<Name>) {
    match step
    case Begin(_) => app.phase.Idle? && (app.queue != [] || app.dirty || n !in d)
    case Report(_) => app.phase.Synced?
    case Finish(_) => app.phase.Reported?
    case Mark(_, e) => e in app.incoming
    case Sweep(_) => Sweepable(app, d, foreign)
    case Abort(_) => !app.phase.Idle?
    case _ => false
  }

  predicate Local(step: Step) {
    step.Begin? || step.Report? || step.Finish? || step.Mark? || step.Sweep? || step.Abort?
  }

  /** Delivering an event, repeating it, or giving it up. */
  predicate IsFanOut(step: Step) {
    step.List? || step.Relist? || step.Drop? || step.DropMarks?
  }

  /** A client ID that no one has seen. */
  predicate IsNewId(s: State, id: ClientId) {
    && (forall c :: c in s.apps ==> id !in Assigned(s.apps[c]).Values && id !in LastRead(s.apps[c]).Values)
    && (forall e :: e in s.emitted ==> e.clientId != id)
  }

  /** Of the marks that are on their way, only some of this event's are lost. */
  ghost predicate LosesMarks(s: State, e: Event, kept: map<Name, multiset<Event>>) {
    && kept.Keys == s.apps.Keys
    && forall c, f :: c in s.apps && (f in s.apps[c].incoming || f in kept[c]) ==>
         kept[c][f] <= s.apps[c].incoming[f] && (f != e ==> kept[c][f] == s.apps[c].incoming[f])
  }

  ghost predicate Enabled(s: State, step: Step) {
    match step
    case Sync(a, id) => a in s.apps && s.apps[a].phase.Begun? && (a !in s.directory ==> IsNewId(s, id))
    case List(e) => e in s.unlisted
    case Relist(e, kept) => e in s.emitted && LosesMarks(s, e, kept)
    case Drop(e) => e in s.unlisted
    case DropMarks(e, kept) => e in s.emitted && LosesMarks(s, e, kept)
    case Register(a, id) => a in s.apps && s.apps[a].phase.Begun? && a !in s.directory && IsNewId(s, id)
    case Remove(a, _) => a in s.apps && s.apps[a].phase.Idle?
    case Create(a, _) => a !in s.apps && a !in s.foreign && ',' !in a && a != Completion.SWEEPER
    case Elsewhere(p, registered) => p in s.foreign && p !in s.apps && (registered.Some? ==> IsNewId(s, registered.value))
    case _ => step.app in s.apps && Ready(step.app, s.apps[step.app], step, s.directory, s.foreign)
  }

  /** The listed apps that exist, with their client IDs. */
  function Readable(app: App, d: ClientIds): ClientIds {
    map p | p in app.lists && p in d :: d[p]
  }

  function Listed(app: App, self: Name, e: Event): App {
    if self != e.producer && NeedsResync(app, e) then app.(incoming := app.incoming + multiset{e}) else app
  }

  function After(app: App, step: Step): App
    requires Local(step)
    requires step.Report? ==> app.phase.Synced?
    requires step.Finish? ==> app.phase.Reported?
  {
    match step
    case Begin(_) => app.(phase := Begun(app.queue))
    case Report(_) => app.(status := Some(app.phase.read), dirty := false, phase := Reported(app.phase.snapshot))
    case Finish(_) => app.(queue := Completion.Remaining(app.phase.snapshot, app.queue), phase := Idle)
    case Mark(_, e) => app.(incoming := app.incoming - multiset{e}, queue := Annotations.Enqueue(app.queue, e.producer))
    case Sweep(_) => app.(queue := [Completion.SWEEPER])
    case Abort(_) => app.(phase := Idle)
  }

  /** A mark that comes to nothing: it repeats the one entry that a running reconcile is about to
      take off, and that reconcile has read the directory before the producer got its client ID. */
  predicate IsMissed(app: App, p: Name, d: ClientIds) {
    && (app.phase.Synced? || app.phase.Reported?)
    && app.phase.snapshot == app.queue == [p]
    && !Has(LastRead(app), p, d)
  }

  /** The consumers that an event is lost on. */
  function Missing(s: State, p: Name): set<Pair> {
    set c | c in s.apps && c != p && p in s.apps[c].lists && !Has(LastRead(s.apps[c]), p, s.directory) :: Pair(c, p)
  }

  function NewlyMissed(s: State, step: Step): set<Pair>
    requires Enabled(s, step)
  {
    match step
    case Mark(c, e) =>
      if c != e.producer && e.producer in s.apps[c].lists && IsMissed(s.apps[c], e.producer, s.directory) then
        {Pair(c, e.producer)}
      else
        {}
    case Drop(e) => Missing(s, e.producer)
    case DropMarks(e, _) => Missing(s, e.producer)
    case _ => {}
  }

  function Apply(s: State, step: Step): State
    requires Enabled(s, step)
  {
    match step
    case Sync(a, id) =>
      var app := s.apps[a];
      var d := if a in s.directory then s.directory else s.directory[a := id];
      var e := Event(a, d[a]);
      s.(apps := s.apps[a := app.(phase := Synced(app.phase.snapshot, Readable(app, d)))],
         directory := d,
         unlisted := s.unlisted + multiset{e},
         emitted := s.emitted + {e},
         missed := set m | m in s.missed && m.consumer != a)
    case List(e) =>
      s.(unlisted := s.unlisted - multiset{e},
         apps := map c | c in s.apps :: Listed(s.apps[c], c, e))
    case Relist(e, kept) =>
      s.(unlisted := s.unlisted + multiset{e},
         apps := map c | c in s.apps :: s.apps[c].(incoming := kept[c]))
    case Drop(e) =>
      s.(unlisted := s.unlisted - multiset{e}, missed := s.missed + NewlyMissed(s, step))
    case DropMarks(e, kept) =>
      s.(apps := map c | c in s.apps :: s.apps[c].(incoming := kept[c]), missed := s.missed + NewlyMissed(s, step))
    case Register(a, id) =>
      s.(apps := s.apps[a := s.apps[a].(phase := Idle)], directory := s.directory[a := id])
    case Remove(a, preserved) =>
      s.(apps := s.apps - {a},
         directory := if preserved then s.directory else s.directory - {a},
         missed := set m | m in s.missed && m.consumer != a)
    case Create(a, lists) =>
      s.(apps := s.apps[a := App(lists, None, true, [], multiset{}, Idle)])
    case Elsewhere(p, registered) =>
      s.(directory := if registered.Some? then s.directory[p := registered.value] else s.directory - {p})
    case _ =>
      s.(apps := s.apps[step.app := After(s.apps[step.app], step)], missed := s.missed + NewlyMissed(s, step))
  }

  // ----------------------------------------------------------- invariant

  ghost predicate PhaseOk(n: Name, app: App, d: ClientIds) {
    match app.phase
    case Idle => true
    case Begun(snapshot) =>
      snapshot <= app.queue && (snapshot != [] || app.dirty)
    case Synced(snapshot, read) =>
      && snapshot <= app.queue && (snapshot != [] || app.dirty)
      && n in d
      && forall p :: p in app.lists && Has(Assigned(app), p, d) ==> Has(read, p, d)
    case Reported(snapshot) =>
      snapshot <= app.queue && n in d
  }

  ghost predicate AppOk(n: Name, app: App, d: ClientIds) {
    && PhaseOk(n, app, d)
    && (app.status.None? || n !in d ==> app.dirty)
  }

  /** The producers of events have the names of apps, and no event is on its way that was not emitted. */
  ghost predicate EventsOk(s: State) {
    && (forall e :: e in s.emitted ==> ',' !in e.producer)
    && (forall e :: e in s.unlisted ==> e in s.emitted)
    && (forall c, e :: c in s.apps && e in s.apps[c].incoming ==> e in s.emitted)
  }

  /** Whoever has missed an event does not have its producer's client ID. */
  ghost predicate MissedOk(s: State) {
    forall m :: m in s.missed ==>
      && m.consumer in s.apps && m.consumer != m.producer && m.producer in s.apps[m.consumer].lists
      && !Has(LastRead(s.apps[m.consumer]), m.producer, s.directory)
  }

  ghost predicate Ok(s: State) {
    && (forall n :: n in s.apps ==> ',' !in n && n != Completion.SWEEPER)
    && (forall n :: n in s.apps ==> AppOk(n, s.apps[n], s.directory))
    && EventsOk(s)
    && MissedOk(s)
  }

  /** A consumer that will come to read `p` without any further event. */
  ghost predicate Pending(app: App, p: Name, d: ClientIds) {
    match app.phase
    case Idle => app.queue != [] || app.dirty
    case Begun(_) => true
    case Synced(snapshot, read) => Has(read, p, d) || Completion.Remaining(snapshot, app.queue) != []
    case Reported(snapshot) => Completion.Remaining(snapshot, app.queue) != []
  }

  ghost predicate Assured(app: App, p: Name, s: State) {
    || p !in s.directory
    || Has(Assigned(app), p, s.directory)
    || Event(p, s.directory[p]) in s.unlisted
    || Event(p, s.directory[p]) in app.incoming
    || Pending(app, p, s.directory)
  }

  /** The producer has emitted an event with its present client ID. */
  predicate HasEmitted(s: State, p: Name) {
    p in s.directory && Event(p, s.directory[p]) in s.emitted
  }

  /** No consumer of a producer that has emitted an event is forgotten, unless it has missed it. */
  ghost predicate NoneForgotten(s: State) {
    forall p, c :: HasEmitted(s, p) && c in s.apps && c != p && p in s.apps[c].lists ==>
                   Assured(s.apps[c], p, s) || Pair(c, p) in s.missed
  }

  // -------------------------------------------------------------- safety

  lemma QueueEntriesAfterMark(q: seq<string>, p: Name)
    requires ',' !in p
    ensures Annotations.Enqueue(q, p) == if q != [] && q[|q| - 1] == p then q else q + [p]
  {
    Annotations.SplitOfPlain(p);
  }

  lemma RemainingEntries(snapshot: seq<string>, live: seq<string>)
    requires snapshot <= live
    ensures snapshot != [] ==> |Completion.Remaining(snapshot, live)| < |live|
    ensures snapshot == [] ==> Completion.Remaining(snapshot, live) == live
  {
  }

  lemma LocalStepKeepsAppOk(n: Name, app: App, step: Step, d: ClientIds, foreign: set<Name>)
    requires AppOk(n, app, d) && Local(step) && Ready(n, app, step, d, foreign)
    requires step.Mark? ==> ',' !in step.event.producer
    ensures AppOk(n, After(app, step), d)
    ensures forall p :: p in app.lists && Has(LastRead(After(app, step)), p, d) ==> Has(LastRead(app), p, d)
  {
    match step
    case Finish(_) => RemainingEntries(app.phase.snapshot, app.queue);
    case Mark(_, e) => QueueEntriesAfterMark(app.queue, e.producer);
    case _ =>
  }

  /** The directory differs in `a` only, which is gone or has a client ID that the app has not seen. */
  predicate ChangesUnseen(app: App, d: ClientIds, d': ClientIds, a: Name) {
    && (forall p :: p in d.Keys + d'.Keys && p != a ==> p in d && p in d' && d'[p] == d[p])
    && (a in d' && d' != d ==> d'[a] !in Assigned(app).Values && d'[a] !in LastRead(app).Values)
  }

  /** Such a change makes no app have what it did not have before, and disturbs no app but `a`. */
  lemma UnseenKeepsAppOk(n: Name, app: App, d: ClientIds, d': ClientIds, a: Name)
    requires ChangesUnseen(app, d, d', a)
    ensures forall p :: Has(LastRead(app), p, d') ==> Has(LastRead(app), p, d)
    ensures AppOk(n, app, d) && n != a ==> AppOk(n, app, d')
  {
    assert forall p :: Has(Assigned(app), p, d') ==> Has(Assigned(app), p, d);
  }

  /** A step of one app that lets it have read no more than before gives it nothing that it missed. */
  lemma OneAppKeepsMissedOk(s: State, s': State, n: Name)
    requires MissedOk(s) && n in s.apps && n in s'.apps && s'.apps == s.apps[n := s'.apps[n]] && s'.directory == s.directory
    requires s'.apps[n].lists == s.apps[n].lists
    requires forall p :: p in s.apps[n].lists && Has(LastRead(s'.apps[n]), p, s.directory) ==> Has(LastRead(s.apps[n]), p, s.directory)
    requires forall m :: m in s'.missed && m !in s.missed ==>
               m.consumer == n && m.producer != n && m.producer in s.apps[n].lists && !Has(LastRead(s.apps[n]), m.producer, s.directory)
    ensures MissedOk(s')
  {
  }

  lemma LocalStepKeepsMissedOk(s: State, step: Step)
    requires Ok(s) && Enabled(s, step) && Local(step)
    ensures MissedOk(Apply(s, step))
  {
    LocalStepKeepsAppOk(step.app, s.apps[step.app], step, s.directory, s.foreign);
    assert After(s.apps[step.app], step).lists == s.apps[step.app].lists;
    OneAppKeepsMissedOk(s, Apply(s, step), step.app);
  }

  lemma LocalStepKeepsEventsOk(s: State, step: Step)
    requires EventsOk(s) && Enabled(s, step) && Local(step)
    ensures EventsOk(Apply(s, step))
  {
    var s' := Apply(s, step);
    forall c, e | c in s'.apps && e in s'.apps[c].incoming
      ensures e in s.emitted
    {
      assert e in s.apps[c].incoming;
    }
  }

  lemma LocalStepKeepsOk(s: State, step: Step)
    requires Ok(s) && Enabled(s, step) && Local(step)
    ensures Ok(Apply(s, step))
  {
    LocalStepKeepsAppOk(step.app, s.apps[step.app], step, s.directory, s.foreign);
    LocalStepKeepsEventsOk(s, step);
    LocalStepKeepsMissedOk(s, step);
    assert Apply(s, step).apps.Keys == s.apps.Keys;
  }

  lemma SyncKeepsOthersOk(s: State, a: Name, id: ClientId, n: Name)
    requires Ok(s) && Enabled(s, Sync(a, id)) && n in s.apps && n != a
    ensures var s' := Apply(s, Sync(a, id));
            && s'.apps[n] == s.apps[n] && AppOk(n, s.apps[n], s'.directory)
            && forall p :: Has(LastRead(s.apps[n]), p, s'.directory) ==> Has(LastRead(s.apps[n]), p, s.directory)
  {
    assert AppOk(n, s.apps[n], s.directory);
    UnseenKeepsAppOk(n, s.apps[n], s.directory, Apply(s, Sync(a, id)).directory, a);
  }

  lemma SyncKeepsItOk(s: State, a: Name, id: ClientId)
    requires Ok(s) && Enabled(s, Sync(a, id))
    ensures var s' := Apply(s, Sync(a, id)); AppOk(a, s'.apps[a], s'.directory)
  {
    assert AppOk(a, s.apps[a], s.directory);
  }

  lemma SyncKeepsEventsOk(s: State, a: Name, id: ClientId)
    requires Ok(s) && Enabled(s, Sync(a, id))
    ensures EventsOk(Apply(s, Sync(a, id)))
  {
  }

  lemma SyncKeepsOk(s: State, a: Name, id: ClientId)
    requires Ok(s) && Enabled(s, Sync(a, id))
    ensures Ok(Apply(s, Sync(a, id)))
  {
    var s' := Apply(s, Sync(a, id));
    assert s'.apps.Keys == s.apps.Keys;
    SyncKeepsItOk(s, a, id);
    SyncKeepsEventsOk(s, a, id);
    forall n | n in s.apps && n != a
      ensures s'.apps[n] == s.apps[n] && AppOk(n, s'.apps[n], s'.directory)
      ensures forall p :: Has(LastRead(s'.apps[n]), p, s'.directory) ==> Has(LastRead(s.apps[n]), p, s.directory)
    {
      SyncKeepsOthersOk(s, a, id, n);
    }
  }

  /** The states differ, as far as the apps are concerned, only in the marks on their way. */
  predicate SameButMarks(s: State, s': State) {
    && s'.apps.Keys == s.apps.Keys && s'.directory == s.directory && s'.emitted == s.emitted
    && forall n :: n in s.apps ==> s'.apps[n] == s.apps[n].(incoming := s'.apps[n].incoming)
  }

  /** Changing only which marks are on their way, and who has missed them, keeps the state in order. */
  lemma MarksKeepOk(s: State, s': State, e: Event)
    requires Ok(s) && SameButMarks(s, s') && e in s.emitted
    requires forall f :: f in s'.unlisted ==> f in s.unlisted || f == e
    requires forall n, f :: n in s.apps && f in s'.apps[n].incoming ==> f in s.apps[n].incoming || f == e
    requires forall m :: m in s'.missed ==> m in s.missed || m in Missing(s, e.producer)
    ensures Ok(s')
  {
    forall n | n in s.apps
      ensures AppOk(n, s'.apps[n], s.directory)
      ensures LastRead(s'.apps[n]) == LastRead(s.apps[n])
    {
      assert AppOk(n, s.apps[n], s.directory);
    }
  }

  lemma KeptWereIncoming(s: State, e: Event, kept: map<Name, multiset<Event>>)
    requires LosesMarks(s, e, kept)
    ensures forall n, f :: n in s.apps && f in kept[n] ==> f in s.apps[n].incoming
  {
  }

  lemma ListedMarks(app: App, self: Name, e: Event)
    ensures var app' := Listed(app, self, e);
            && app' == app.(incoming := app'.incoming)
            && forall f :: f in app'.incoming ==> f in app.incoming || f == e
  {
  }

  lemma ListAddsMarks(s: State, e: Event)
    requires Enabled(s, List(e))
    ensures var s' := Apply(s, List(e));
            && SameButMarks(s, s')
            && (forall f :: f in s'.unlisted ==> f in s.unlisted)
            && (forall n, f :: n in s.apps && f in s'.apps[n].incoming ==> f in s.apps[n].incoming || f == e)
  {
    forall n | n in s.apps
      ensures var app' := Listed(s.apps[n], n, e);
              app' == s.apps[n].(incoming := app'.incoming) && forall f :: f in app'.incoming ==> f in s.apps[n].incoming || f == e
    {
      ListedMarks(s.apps[n], n, e);
    }
  }

  lemma ListKeepsOk(s: State, e: Event)
    requires Ok(s) && Enabled(s, List(e))
    ensures SameButMarks(s, Apply(s, List(e))) && Ok(Apply(s, List(e)))
  {
    ListAddsMarks(s, e);
    MarksKeepOk(s, Apply(s, List(e)), e);
  }

  lemma RelistKeepsOk(s: State, e: Event, kept: map<Name, multiset<Event>>)
    requires Ok(s) && Enabled(s, Relist(e, kept))
    ensures SameButMarks(s, Apply(s, Relist(e, kept))) && Ok(Apply(s, Relist(e, kept)))
  {
    KeptWereIncoming(s, e, kept);
    MarksKeepOk(s, Apply(s, Relist(e, kept)), e);
  }

  lemma DropKeepsOk(s: State, e: Event)
    requires Ok(s) && Enabled(s, Drop(e))
    ensures SameButMarks(s, Apply(s, Drop(e))) && Ok(Apply(s, Drop(e)))
  {
    MarksKeepOk(s, Apply(s, Drop(e)), e);
  }

  lemma DropMarksKeepsOk(s: State, e: Event, kept: map<Name, multiset<Event>>)
    requires Ok(s) && Enabled(s, DropMarks(e, kept))
    ensures SameButMarks(s, Apply(s, DropMarks(e, kept))) && Ok(Apply(s, DropMarks(e, kept)))
  {
    KeptWereIncoming(s, e, kept);
    MarksKeepOk(s, Apply(s, DropMarks(e, kept)), e);
  }

  lemma RegisterKeepsAppOk(s: State, a: Name, id: ClientId, n: Name)
    requires Ok(s) && Enabled(s, Register(a, id)) && n in s.apps
    ensures var s' := Apply(s, Register(a, id));
            && AppOk(n, s'.apps[n], s'.directory)
            && forall p :: Has(LastRead(s'.apps[n]), p, s'.directory) ==> Has(LastRead(s.apps[n]), p, s.directory)
  {
    assert AppOk(n, s.apps[n], s.directory);
    UnseenKeepsAppOk(n, s.apps[n], s.directory, s.directory[a := id], a);
  }

  lemma RegisterKeepsMissedOk(s: State, a: Name, id: ClientId)
    requires Ok(s) && Enabled(s, Register(a, id))
    ensures MissedOk(Apply(s, Register(a, id)))
  {
    var s' := Apply(s, Register(a, id));
    forall m | m in s.missed
      ensures m.producer in s'.apps[m.consumer].lists && !Has(LastRead(s'.apps[m.consumer]), m.producer, s'.directory)
    {
      RegisterKeepsAppOk(s, a, id, m.consumer);
    }
  }

  lemma RegisterKeepsOk(s: State, a: Name, id: ClientId)
    requires Ok(s) && Enabled(s, Register(a, id))
    ensures Ok(Apply(s, Register(a, id)))
  {
    var s' := Apply(s, Register(a, id));
    assert s'.apps.Keys == s.apps.Keys;
    RegisterKeepsMissedOk(s, a, id);
    forall n | n in s.apps
      ensures AppOk(n, s'.apps[n], s'.directory)
    {
      RegisterKeepsAppOk(s, a, id, n);
    }
  }

  lemma RemoveKeepsOk(s: State, a: Name, preserved: bool)
    requires Ok(s) && Enabled(s, Remove(a, preserved))
    ensures Ok(Apply(s, Remove(a, preserved)))
  {
    var s' := Apply(s, Remove(a, preserved));
    forall n | n in s'.apps
      ensures AppOk(n, s'.apps[n], s'.directory)
      ensures forall p :: Has(LastRead(s'.apps[n]), p, s'.directory) ==> Has(LastRead(s.apps[n]), p, s.directory)
    {
      assert AppOk(n, s.apps[n], s.directory) && s'.apps[n] == s.apps[n];
      UnseenKeepsAppOk(n, s.apps[n], s.directory, s'.directory, a);
    }
  }

  lemma CreateKeepsOk(s: State, a: Name, lists: set<Name>)
    requires Ok(s) && Enabled(s, Create(a, lists))
    ensures Ok(Apply(s, Create(a, lists)))
  {
    var s' := Apply(s, Create(a, lists));
    forall n | n in s'.apps
      ensures AppOk(n, s'.apps[n], s'.directory)
    {
      assert n != a ==> AppOk(n, s.apps[n], s.directory) && s'.apps[n] == s.apps[n];
    }
  }

  lemma ElsewhereKeepsOk(s: State, p: Name, registered: Option<ClientId>)
    requires Ok(s) && Enabled(s, Elsewhere(p, registered))
    ensures Ok(Apply(s, Elsewhere(p, registered)))
  {
    var s' := Apply(s, Elsewhere(p, registered));
    forall n | n in s.apps
      ensures AppOk(n, s'.apps[n], s'.directory)
      ensures forall q :: Has(LastRead(s'.apps[n]), q, s'.directory) ==> Has(LastRead(s.apps[n]), q, s.directory)
    {
      assert AppOk(n, s.apps[n], s.directory);
      UnseenKeepsAppOk(n, s.apps[n], s.directory, s'.directory, p);
    }
  }

  lemma FanOutKeepsOk(s: State, step: Step)
    requires Ok(s) && Enabled(s, step) && IsFanOut(step)
    ensures SameButMarks(s, Apply(s, step)) && Ok(Apply(s, step))
  {
    match step
    case List(e) => ListKeepsOk(s, e);
    case Relist(e, kept) => RelistKeepsOk(s, e, kept);
    case Drop(e) => DropKeepsOk(s, e);
    case DropMarks(e, kept) => DropMarksKeepsOk(s, e, kept);
  }

  lemma RegistryStepKeepsOk(s: State, step: Step)
    requires Ok(s) && Enabled(s, step) && !Local(step) && !IsFanOut(step)
    ensures Ok(Apply(s, step))
  {
    match step
    case Sync(a, id) => SyncKeepsOk(s, a, id);
    case Register(a, id) => RegisterKeepsOk(s, a, id);
    case Remove(a, preserved) => RemoveKeepsOk(s, a, preserved);
    case Create(a, lists) => CreateKeepsOk(s, a, lists);
    case Elsewhere(p, registered) => ElsewhereKeepsOk(s, p, registered);
  }

  /** Every step, failures included, keeps the state in order. */
  lemma OkKept(s: State, step: Step)
    requires Ok(s) && Enabled(s, step)
    ensures Ok(Apply(s, step))
  {
    if Local(step) {
      LocalStepKeepsOk(s, step);
    } else if IsFanOut(step) {
      FanOutKeepsOk(s, step);
    } else {
      RegistryStepKeepsOk(s, step);
    }
  }

  /** Whatever a consumer is waiting for, it still is after a step of its own. */
  lemma LocalStepKeepsPending(n: Name, app: App, step: Step, d: ClientIds, foreign: set<Name>, p: Name)
    requires AppOk(n, app, d) && Local(step) && Ready(n, app, step, d, foreign)
    requires step.Mark? ==> ',' !in step.event.producer
    requires p in app.lists && Pending(app, p, d)
    ensures Pending(After(app, step), p, d) || Has(Assigned(After(app, step)), p, d)
  {
    match step
    case Mark(_, e) => QueueEntriesAfterMark(app.queue, e.producer);
    case Finish(_) => RemainingEntries(app.phase.snapshot, app.queue);
    case _ =>
  }

  /** A mark makes its consumer read the directory again exactly if it is not missed: even one that
      is suppressed as a repetition counts, unless it repeats the only entry of the running
      reconcile, and that one has read the directory before the producer's registration. */
  lemma MarkBecomesPending(n: Name, app: App, e: Event, d: ClientIds)
    requires AppOk(n, app, d) && ',' !in e.producer
    requires !Has(Assigned(app), e.producer, d)
    ensures Pending(After(app, Mark(n, e)), e.producer, d) <==> !IsMissed(app, e.producer, d)
  {
    QueueEntriesAfterMark(app.queue, e.producer);
  }

  lemma LocalStepKeepsAssured(s: State, step: Step, p: Name)
    requires Ok(s) && Enabled(s, step) && Local(step)
    requires step.app != p && p in s.apps[step.app].lists && Assured(s.apps[step.app], p, s)
    ensures Assured(After(s.apps[step.app], step), p, Apply(s, step)) || Pair(step.app, p) in Apply(s, step).missed
  {
    var n := step.app;
    var app, d := s.apps[n], s.directory;
    assert AppOk(n, app, d);
    if p in d {
      if Has(Assigned(app), p, d) {
        assert step.Report? ==> Has(app.phase.read, p, d);
      } else if Pending(app, p, d) {
        LocalStepKeepsPending(n, app, step, d, s.foreign, p);
      } else if step == Mark(n, Event(p, d[p])) {
        MarkBecomesPending(n, app, Event(p, d[p]), d);
      }
    }
  }

  lemma LocalStepForgetsNone(s: State, step: Step)
    requires Ok(s) && NoneForgotten(s) && Enabled(s, step) && Local(step)
    ensures NoneForgotten(Apply(s, step))
  {
    var s' := Apply(s, step);
    forall p, c | HasEmitted(s', p) && c in s'.apps && c != p && p in s'.apps[c].lists
      ensures Assured(s'.apps[c], p, s') || Pair(c, p) in s'.missed
    {
      assert HasEmitted(s, p);
      if c == step.app && Assured(s.apps[c], p, s) {
        LocalStepKeepsAssured(s, step, p);
      }
    }
  }

  lemma SyncForgetsNone(s: State, a: Name, id: ClientId)
    requires Ok(s) && NoneForgotten(s) && Enabled(s, Sync(a, id))
    ensures NoneForgotten(Apply(s, Sync(a, id)))
  {
    var s' := Apply(s, Sync(a, id));
    forall p, c | HasEmitted(s', p) && c in s'.apps && c != p && p in s'.apps[c].lists
      ensures Assured(s'.apps[c], p, s') || Pair(c, p) in s'.missed
    {
      if c == a {
        assert Has(Readable(s.apps[c], s'.directory), p, s'.directory);
      } else if p != a {
        assert HasEmitted(s, p) && s'.apps[c] == s.apps[c];
      }
    }
  }

  /** Delivering, repeating or giving up an event concerns only consumers of its producer. */
  lemma FanOutForgetsNone(s: State, step: Step)
    requires Ok(s) && NoneForgotten(s) && Enabled(s, step) && IsFanOut(step)
    ensures NoneForgotten(Apply(s, step))
  {
    var s', e := Apply(s, step), step.event;
    forall p, c | HasEmitted(s', p) && c in s'.apps && c != p && p in s'.apps[c].lists
      ensures Assured(s'.apps[c], p, s') || Pair(c, p) in s'.missed
    {
      assert HasEmitted(s, p);
      OneConsumerKept(s, step, p, c);
    }
  }

  lemma ListKeepsConsumer(s: State, e: Event, p: Name, c: Name)
    requires Enabled(s, List(e)) && c in s.apps && c != p && p in s.apps[c].lists && Assured(s.apps[c], p, s)
    ensures Assured(Apply(s, List(e)).apps[c], p, Apply(s, List(e)))
  {
    var app, app' := s.apps[c], Listed(s.apps[c], c, e);
    assert app' == app.(incoming := app'.incoming);
    assert forall f :: f in app.incoming ==> f in app'.incoming;
  }

  lemma RelistKeepsConsumer(s: State, e: Event, kept: map<Name, multiset<Event>>, p: Name, c: Name)
    requires Enabled(s, Relist(e, kept)) && c in s.apps && p in s.apps[c].lists && Assured(s.apps[c], p, s)
    ensures Assured(Apply(s, Relist(e, kept)).apps[c], p, Apply(s, Relist(e, kept)))
  {
    assert forall f :: f in s.apps[c].incoming && f != e ==> f in kept[c];
  }

  /** Whoever does not miss an event that is given up has its client ID, or will report it. */
  lemma LossKeepsConsumer(s: State, s': State, e: Event, p: Name, c: Name)
    requires c in s.apps && c != p && p in s.apps[c].lists && Assured(s.apps[c], p, s)
    requires SameButMarks(s, s') && Pair(c, p) !in s'.missed && Missing(s, e.producer) <= s'.missed
    requires forall f :: f != e && f in s.unlisted ==> f in s'.unlisted
    requires forall f :: f != e && f in s.apps[c].incoming ==> f in s'.apps[c].incoming
    ensures Assured(s'.apps[c], p, s')
  {
    if p == e.producer {
      assert Has(LastRead(s.apps[c]), p, s.directory);
    }
  }

  lemma OneConsumerKept(s: State, step: Step, p: Name, c: Name)
    requires Ok(s) && Enabled(s, step) && IsFanOut(step)
    requires c in s.apps && c != p && p in s.apps[c].lists && (Assured(s.apps[c], p, s) || Pair(c, p) in s.missed)
    ensures Assured(Apply(s, step).apps[c], p, Apply(s, step)) || Pair(c, p) in Apply(s, step).missed
  {
    if Pair(c, p) !in Apply(s, step).missed {
      match step
      case List(e) => ListKeepsConsumer(s, e, p, c);
      case Relist(e, kept) => RelistKeepsConsumer(s, e, kept, p, c);
      case Drop(e) => LossKeepsConsumer(s, Apply(s, step), e, p, c);
      case DropMarks(e, kept) => LossKeepsConsumer(s, Apply(s, step), e, p, c);
    }
  }

  lemma RegisterForgetsNone(s: State, a: Name, id: ClientId)
    requires Ok(s) && NoneForgotten(s) && Enabled(s, Register(a, id))
    ensures NoneForgotten(Apply(s, Register(a, id)))
  {
    var s' := Apply(s, Register(a, id));
    assert AppOk(a, s.apps[a], s.directory);
    forall p, c | HasEmitted(s', p) && c in s'.apps && c != p && p in s'.apps[c].lists
      ensures Assured(s'.apps[c], p, s') || Pair(c, p) in s'.missed
    {
      assert p != a && HasEmitted(s, p);
      assert c != a ==> s'.apps[c] == s.apps[c];
    }
  }

  lemma RemoveForgetsNone(s: State, a: Name, preserved: bool)
    requires Ok(s) && NoneForgotten(s) && Enabled(s, Remove(a, preserved))
    ensures NoneForgotten(Apply(s, Remove(a, preserved)))
  {
    var s' := Apply(s, Remove(a, preserved));
    forall p, c | HasEmitted(s', p) && c in s'.apps && c != p && p in s'.apps[c].lists
      ensures Assured(s'.apps[c], p, s') || Pair(c, p) in s'.missed
    {
      assert HasEmitted(s, p) && s'.apps[c] == s.apps[c];
    }
  }

  lemma CreateForgetsNone(s: State, a: Name, lists: set<Name>)
    requires Ok(s) && NoneForgotten(s) && Enabled(s, Create(a, lists))
    ensures NoneForgotten(Apply(s, Create(a, lists)))
  {
    var s' := Apply(s, Create(a, lists));
    forall p, c | HasEmitted(s', p) && c in s'.apps && c != p && p in s'.apps[c].lists
      ensures Assured(s'.apps[c], p, s') || Pair(c, p) in s'.missed
    {
      assert HasEmitted(s, p);
      assert c != a ==> s'.apps[c] == s.apps[c];
    }
  }

  lemma ElsewhereForgetsNone(s: State, a: Name, registered: Option<ClientId>)
    requires Ok(s) && NoneForgotten(s) && Enabled(s, Elsewhere(a, registered))
    ensures NoneForgotten(Apply(s, Elsewhere(a, registered)))
  {
    var s' := Apply(s, Elsewhere(a, registered));
    forall p, c | HasEmitted(s', p) && c in s'.apps && c != p && p in s'.apps[c].lists
      ensures Assured(s'.apps[c], p, s') || Pair(c, p) in s'.missed
    {
      assert p != a && HasEmitted(s, p);
    }
  }

  lemma RegistryStepForgetsNone(s: State, step: Step)
    requires Ok(s) && NoneForgotten(s) && Enabled(s, step) && !Local(step) && !IsFanOut(step)
    ensures NoneForgotten(Apply(s, step))
  {
    match step
    case Sync(a, id) => SyncForgetsNone(s, a, id);
    case Register(a, id) => RegisterForgetsNone(s, a, id);
    case Remove(a, preserved) => RemoveForgetsNone(s, a, preserved);
    case Create(a, lists) => CreateForgetsNone(s, a, lists);
    case Elsewhere(p, registered) => ElsewhereForgetsNone(s, p, registered);
  }

  /** Every step, failures included, keeps all consumers of emitted events assured. */
  lemma NoneForgottenKept(s: State, step: Step)
    requires Ok(s) && NoneForgotten(s) && Enabled(s, step)
    ensures NoneForgotten(Apply(s, step))
  {
    if Local(step) {
      LocalStepForgetsNone(s, step);
    } else if IsFanOut(step) {
      FanOutForgetsNone(s, step);
    } else {
      RegistryStepForgetsNone(s, step);
    }
  }

  // ---------------------------------------------------------------- runs

  /** `steps`, taken in order from `s`, lead to `s'`. */
  ghost predicate Run(s: State, steps: seq<Step>, s': State)
    decreases |steps|
  {
    if steps == [] then s == s' else Enabled(s, steps[0]) && Run(Apply(s, steps[0]), steps[1..], s')
  }

  /** Nothing is running, queued, or on its way, and no resource is unsynchronized. */
  ghost predicate Quiet(s: State) {
    && s.unlisted == multiset{}
    && forall n :: n in s.apps ==>
         s.apps[n].phase.Idle? && s.apps[n].queue == [] && !s.apps[n].dirty && s.apps[n].incoming == multiset{}
  }

  lemma {:induction false} RunKeepsInvariant(s: State, steps: seq<Step>, s': State)
    requires Ok(s) && NoneForgotten(s) && Run(s, steps, s')
    ensures Ok(s') && NoneForgotten(s')
    decreases |steps|
  {
    if steps != [] {
      OkKept(s, steps[0]);
      NoneForgottenKept(s, steps[0]);
      RunKeepsInvariant(Apply(s, steps[0]), steps[1..], s');
    }
  }

  /** Over any run, with reconciles interleaved and failing anywhere, events repeated or given up,
      and apps deleted and created anew: once the cluster is quiet, a consumer of a producer that
      emitted an event has its client ID exactly if it has not missed it. */
  lemma QuietMeansConsistent(s: State, steps: seq<Step>, s': State)
    requires Ok(s) && s.emitted == {} && Run(s, steps, s') && Quiet(s')
    ensures forall p, c :: HasEmitted(s', p) && c in s'.apps && c != p && p in s'.apps[c].lists ==>
                             (Has(Assigned(s'.apps[c]), p, s'.directory) <==> Pair(c, p) !in s'.missed)
  {
    RunKeepsInvariant(s, steps, s');
    forall p, c | HasEmitted(s', p) && c in s'.apps && c != p && p in s'.apps[c].lists
      ensures Has(Assigned(s'.apps[c]), p, s'.directory) <==> Pair(c, p) !in s'.missed
    {
      assert Assured(s'.apps[c], p, s') || Pair(c, p) in s'.missed;
      assert LastRead(s'.apps[c]) == Assigned(s'.apps[c]);
    }
  }

  /** Whoever has come to have another client ID than it had in `before`, and is no longer waiting to
      be reconciled, has emitted an event with it. */
  ghost predicate Announced(s: State, before: ClientIds) {
    forall a :: a in s.apps && a in s.directory && !Has(before, a, s.directory) && (!s.apps[a].dirty || s.apps[a].phase.Synced?) ==>
                  HasEmitted(s, a)
  }

  lemma LocalStepKeepsAnnounced(s: State, step: Step, before: ClientIds)
    requires Announced(s, before) && Enabled(s, step) && Local(step)
    ensures Announced(Apply(s, step), before)
  {
    var s' := Apply(s, step);
    forall a | a in s'.apps && a in s'.directory && !Has(before, a, s'.directory) && (!s'.apps[a].dirty || s'.apps[a].phase.Synced?)
      ensures HasEmitted(s', a)
    {
      assert a != step.app ==> s'.apps[a] == s.apps[a];
    }
  }

  lemma AnnouncedKept(s: State, step: Step, before: ClientIds)
    requires Ok(s) && Announced(s, before) && Enabled(s, step)
    ensures Announced(Apply(s, step), before)
  {
    if Local(step) {
      LocalStepKeepsAnnounced(s, step, before);
      return;
    }
    var s' := Apply(s, step);
    forall a | a in s'.apps && a in s'.directory && !Has(before, a, s'.directory) && (!s'.apps[a].dirty || s'.apps[a].phase.Synced?)
      ensures HasEmitted(s', a)
    {
      assert a in s.apps ==> AppOk(a, s.apps[a], s.directory);
    }
  }

  lemma {:induction false} RunKeepsAnnounced(s: State, steps: seq<Step>, s': State, before: ClientIds)
    requires Ok(s) && Announced(s, before) && Run(s, steps, s')
    ensures Announced(s', before)
    decreases |steps|
  {
    if steps != [] {
      OkKept(s, steps[0]);
      AnnouncedKept(s, steps[0], before);
      RunKeepsAnnounced(Apply(s, steps[0]), steps[1..], s', before);
    }
  }

  /** A run from one state to another that gets as far as a step that makes a consumer miss an event. */
  ghost predicate MissesAt(s: State, steps: seq<Step>, i: nat, at: State, m: Pair) {
    && i < |steps| && Run(s, steps[..i], at) && Enabled(at, steps[i])
    && m in NewlyMissed(at, steps[i])
  }

  /** An event is missed only by a mark that comes to nothing, or by one that is given up. */
  lemma {:induction false} MissedOnlyAsStated(s: State, steps: seq<Step>, s': State, m: Pair) returns (i: nat, at: State)
    requires Run(s, steps, s') && m !in s.missed && m in s'.missed
    ensures MissesAt(s, steps, i, at, m)
    decreases |steps|
  {
    var next := Apply(s, steps[0]);
    if m in next.missed {
      assert m in NewlyMissed(s, steps[0]);
      i, at := 0, s;
    } else {
      var j;
      j, at := MissedOnlyAsStated(next, steps[1..], s', m);
      i := j + 1;
      assert steps[..i][0] == steps[0] && steps[..i][1..] == steps[1..][..j] && steps[i] == steps[1..][j];
    }
  }

  // --------------------------------------------------------- termination

  ghost predicate Lagging(app: App, d: ClientIds) {
    !Covers(app.lists, LastRead(app), d)
  }

  ghost predicate Stale(app: App, d: ClientIds) {
    !Covers(app.lists, Assigned(app), d)
  }

  ghost function Level(app: App, d: ClientIds): nat {
    if Lagging(app, d) then 2 else if Stale(app, d) then 1 else 0
  }

  /** Reconciles still owed to the app, the running one excluded once it has read the directory. */
  ghost function Owed(app: App): int {
    var due := |app.queue| + if app.dirty then 1 else 0;
    match app.phase
    case Synced(snapshot, _) => due - (if snapshot != [] || app.dirty then 1 else 0)
    case Reported(snapshot) => due - (if snapshot != [] then 1 else 0)
    case _ => due
  }

  ghost function PhaseWeight(phase: Phase): nat {
    match phase
    case Begun(_) => 1
    case Idle => 2
    case Reported(_) => 3
    case Synced(_, _) => 4
  }

  ghost function Weight(app: App, d: ClientIds): nat {
    PhaseWeight(app.phase) + if Level(app, d) == 0 && Owed(app) >= 0 then 5 * Owed(app) + 6 * |app.incoming| else 0
  }

  ghost function Traffic(app: App): nat {
    2 * |app.incoming| + if app.queue == [] then 1 else 0
  }

  lemma OwedIsNatural(n: Name, app: App, d: ClientIds)
    requires AppOk(n, app, d)
    ensures Owed(app) >= 0
  {
  }

  /** What a step of one app does to its part of the measure. */
  lemma LocalStepDescends(n: Name, app: App, step: Step, d: ClientIds, foreign: set<Name>)
    requires AppOk(n, app, d) && Local(step) && !Disturbs(step) && Ready(n, app, step, d, foreign)
    requires step.Mark? ==> ',' !in step.event.producer
    ensures Level(After(app, step), d) <= Level(app, d)
    ensures Level(After(app, step), d) == Level(app, d) ==> Weight(After(app, step), d) <= Weight(app, d)
    ensures Level(After(app, step), d) == Level(app, d) && Weight(After(app, step), d) == Weight(app, d) ==>
              Traffic(After(app, step)) < Traffic(app)
  {
    OwedIsNatural(n, app, d);
    match step
    case Mark(_, e) => QueueEntriesAfterMark(app.queue, e.producer);
    case Finish(_) => RemainingEntries(app.phase.snapshot, app.queue);
    case Sweep(_) => assert Stale(app, d);
    case _ =>
  }

  ghost function Unregistered(s: State): nat {
    |s.apps.Keys - s.directory.Keys|
  }

  ghost function LevelOf(s: State): Name -> nat {
    n => if n in s.apps then Level(s.apps[n], s.directory) else 0
  }

  ghost function WeightOf(s: State): Name -> nat {
    n => if n in s.apps then Weight(s.apps[n], s.directory) else 0
  }

  ghost function TrafficOf(s: State): Name -> nat {
    n => if n in s.apps then Traffic(s.apps[n]) else 0
  }

  predicate IsCurrent(e: Event, d: ClientIds) {
    e.producer in d && d[e.producer] == e.clientId
  }

  /** How often an event with a former client ID has yet to list the apps. */
  ghost function OutdatedOf(s: State): Event -> nat {
    e => if IsCurrent(e, s.directory) then 0 else s.unlisted[e]
  }

  ghost function Levels(s: State): nat {
    Sum(s.apps.Keys, LevelOf(s))
  }

  ghost function OutdatedEvents(s: State): nat {
    Sum(s.emitted, OutdatedOf(s))
  }

  ghost function Weights(s: State): nat {
    Sum(s.apps.Keys, WeightOf(s)) + |s.unlisted|
  }

  ghost function AllTraffic(s: State): nat {
    Sum(s.apps.Keys, TrafficOf(s))
  }

  /** The measure: apps not registered, then staleness, then outdated events, which may mark
      apps that have nothing to read, then work owed, then traffic. */
  ghost predicate Descends(s: State, s': State) {
    if Unregistered(s') != Unregistered(s) then Unregistered(s') < Unregistered(s)
    else if Levels(s') != Levels(s) then Levels(s') < Levels(s)
    else if OutdatedEvents(s') != OutdatedEvents(s) then OutdatedEvents(s') < OutdatedEvents(s)
    else if Weights(s') != Weights(s) then Weights(s') < Weights(s)
    else AllTraffic(s') < AllTraffic(s)
  }

  /** The states differ, as far as the sums over apps are concerned, in one app only. */
  ghost predicate DifferAt(s: State, s': State, n: Name) {
    && n in s.apps
    && s'.apps.Keys == s.apps.Keys
    && s'.directory == s.directory
    && forall c :: c in s.apps && c != n ==> s'.apps[c] == s.apps[c]
  }

  lemma LevelsDiffer(s: State, s': State, n: Name)
    requires DifferAt(s, s', n)
    ensures Unregistered(s') == Unregistered(s)
    ensures Levels(s') + Level(s.apps[n], s.directory) == Levels(s) + Level(s'.apps[n], s.directory)
  {
    SumUpdate(s.apps.Keys, LevelOf(s), LevelOf(s'), n);
  }

  lemma WeightsDiffer(s: State, s': State, n: Name)
    requires DifferAt(s, s', n)
    ensures Weights(s') + |s.unlisted| + Weight(s.apps[n], s.directory) ==
            Weights(s) + |s'.unlisted| + Weight(s'.apps[n], s.directory)
  {
    SumUpdate(s.apps.Keys, WeightOf(s), WeightOf(s'), n);
  }

  lemma TrafficDiffers(s: State, s': State, n: Name)
    requires DifferAt(s, s', n)
    ensures AllTraffic(s') + Traffic(s.apps[n]) == AllTraffic(s) + Traffic(s'.apps[n])
  {
    SumUpdate(s.apps.Keys, TrafficOf(s), TrafficOf(s'), n);
  }

  /** One app's part of the measure. */
  ghost predicate AppDescends(app: App, app': App, d: ClientIds) {
    && Level(app', d) <= Level(app, d)
    && (Level(app', d) == Level(app, d) ==>
          Weight(app', d) < Weight(app, d) || (Weight(app', d) == Weight(app, d) && Traffic(app') < Traffic(app)))
  }

  lemma OneAppDescends(s: State, s': State, n: Name)
    requires DifferAt(s, s', n) && s'.unlisted == s.unlisted && s'.emitted == s.emitted
    requires AppDescends(s.apps[n], s'.apps[n], s.directory)
    ensures Descends(s, s')
  {
    LevelsDiffer(s, s', n);
    SumCongruent(s.emitted, OutdatedOf(s), OutdatedOf(s'));
    WeightsDiffer(s, s', n);
    TrafficDiffers(s, s', n);
  }

  /** The state after a step of one app, as far as the measure is concerned. */
  lemma LocalStepDiffers(s: State, step: Step)
    requires Enabled(s, step) && Local(step)
    ensures var s', n := Apply(s, step), step.app;
            && DifferAt(s, s', n) && s'.apps[n] == After(s.apps[n], step)
            && s'.unlisted == s.unlisted && s'.emitted == s.emitted
  {
  }

  lemma LocalStepDescendsOverall(s: State, step: Step)
    requires Ok(s) && Enabled(s, step) && Local(step) && !Disturbs(step)
    ensures Descends(s, Apply(s, step))
  {
    var s', app := Apply(s, step), s.apps[step.app];
    assert AppDescends(app, After(app, step), s.directory) by {
      LocalStepDescends(step.app, app, step, s.directory, s.foreign);
    }
    LocalStepDiffers(s, step);
    OneAppDescends(s, s', step.app);
  }

  lemma SyncingAppDescends(a: Name, app: App, d: ClientIds)
    requires AppOk(a, app, d) && app.phase.Begun? && a in d
    ensures var app' := app.(phase := Synced(app.phase.snapshot, Readable(app, d)));
            && Level(app', d) <= Level(app, d)
            && (Level(app', d) == Level(app, d) ==> Weight(app', d) + 1 < Weight(app, d))
  {
    var app' := app.(phase := Synced(app.phase.snapshot, Readable(app, d)));
    assert Covers(app.lists, LastRead(app'), d);
    OwedIsNatural(a, app, d);
  }

  lemma RegistrationDescends(s: State, s': State, a: Name)
    requires a in s.apps && a !in s.directory
    requires s'.apps.Keys == s.apps.Keys && s'.directory.Keys == s.directory.Keys + {a}
    ensures Unregistered(s') < Unregistered(s)
  {
    var missing := s.apps.Keys - s.directory.Keys;
    assert s'.apps.Keys - s'.directory.Keys == missing - {a};
  }

  /** An event with the present client ID adds nothing that is outdated. */
  lemma CurrentEventIsNotOutdated(s: State, s': State, e: Event)
    requires s'.directory == s.directory && IsCurrent(e, s.directory)
    requires s'.emitted == s.emitted + {e} && s'.unlisted == s.unlisted + multiset{e}
    ensures OutdatedEvents(s') == OutdatedEvents(s)
  {
    SumRemove(s'.emitted, OutdatedOf(s'), e);
    if e in s.emitted {
      SumRemove(s.emitted, OutdatedOf(s), e);
    }
    assert s'.emitted - {e} == s.emitted - {e};
    SumCongruent(s.emitted - {e}, OutdatedOf(s), OutdatedOf(s'));
    assert e !in s.emitted ==> s.emitted - {e} == s.emitted;
  }

  lemma SyncDescends(s: State, a: Name, id: ClientId)
    requires Ok(s) && Enabled(s, Sync(a, id))
    ensures Descends(s, Apply(s, Sync(a, id)))
  {
    var s' := Apply(s, Sync(a, id));
    assert s'.apps.Keys == s.apps.Keys;
    if a !in s.directory {
      RegistrationDescends(s, s', a);
    } else {
      var app := s.apps[a];
      SyncingAppDescends(a, app, s.directory);
      assert s'.apps[a] == app.(phase := Synced(app.phase.snapshot, Readable(app, s.directory)));
      assert |s'.unlisted| == |s.unlisted| + 1;
      CurrentEventIsNotOutdated(s, s', Event(a, s.directory[a]));
      LevelsDiffer(s, s', a);
      WeightsDiffer(s, s', a);
    }
  }

  lemma ListingWeighsNothing(app: App, n: Name, e: Event, d: ClientIds)
    ensures Level(Listed(app, n, e), d) == Level(app, d)
    ensures IsCurrent(e, d) ==> Weight(Listed(app, n, e), d) == Weight(app, d)
  {
  }

  lemma ListKeepsLevels(s: State, e: Event)
    requires Enabled(s, List(e))
    ensures Unregistered(Apply(s, List(e))) == Unregistered(s) && Levels(Apply(s, List(e))) == Levels(s)
  {
    var s' := Apply(s, List(e));
    assert s'.apps.Keys == s.apps.Keys;
    forall n | n in s.apps
      ensures LevelOf(s)(n) == LevelOf(s')(n)
    {
      ListingWeighsNothing(s.apps[n], n, e, s.directory);
    }
    SumCongruent(s.apps.Keys, LevelOf(s), LevelOf(s'));
  }

  lemma ListLowersOutdated(s: State, e: Event)
    requires Enabled(s, List(e)) && e in s.emitted
    ensures OutdatedEvents(Apply(s, List(e))) == OutdatedEvents(s) - if IsCurrent(e, s.directory) then 0 else 1
  {
    SumUpdate(s.emitted, OutdatedOf(s), OutdatedOf(Apply(s, List(e))), e);
  }

  lemma ListLowersWeights(s: State, e: Event)
    requires Enabled(s, List(e)) && IsCurrent(e, s.directory)
    ensures Weights(Apply(s, List(e))) == Weights(s) - 1
  {
    var s' := Apply(s, List(e));
    assert s'.apps.Keys == s.apps.Keys;
    forall n | n in s.apps
      ensures WeightOf(s)(n) == WeightOf(s')(n)
    {
      ListingWeighsNothing(s.apps[n], n, e, s.directory);
    }
    SumCongruent(s.apps.Keys, WeightOf(s), WeightOf(s'));
  }

  lemma ListDescends(s: State, e: Event)
    requires Ok(s) && Enabled(s, List(e))
    ensures Descends(s, Apply(s, List(e)))
  {
    ListKeepsLevels(s, e);
    ListLowersOutdated(s, e);
    if IsCurrent(e, s.directory) {
      ListLowersWeights(s, e);
    }
  }

  lemma StepDescends(s: State, step: Step)
    requires Ok(s) && Enabled(s, step) && !Disturbs(step)
    ensures Descends(s, Apply(s, step))
  {
    if Local(step) {
      LocalStepDescendsOverall(s, step);
    } else if step.List? {
      ListDescends(s, step.event);
    } else {
      SyncDescends(s, step.app, step.id);
    }
  }

  /** There is no infinite run without failures and deletions, whatever the order of its steps. */
  lemma {:induction false} NoInfiniteRun(run: nat -> State, steps: nat -> Step, from: nat)
    requires Ok(run(from))
    requires forall i: nat :: from <= i ==> !Disturbs(steps(i)) && Enabled(run(i), steps(i)) && run(i + 1) == Apply(run(i), steps(i))
    ensures false
    decreases Unregistered(run(from)), Levels(run(from)), OutdatedEvents(run(from)), Weights(run(from)), AllTraffic(run(from))
  {
    OkKept(run(from), steps(from));
    StepDescends(run(from), steps(from));
    NoInfiniteRun(run, steps, from + 1);
  }

  // --------------------------------------------------------- convergence

  lemma BegunAppCanSync(s: State, c: Name) returns (id: ClientId)
    requires c in s.apps && s.apps[c].phase.Begun?
    ensures Enabled(s, Sync(c, id))
  {
    id := Strings.UnusedStringExists(
      (set n, u | n in s.apps && u in Assigned(s.apps[n]).Values :: u)
      + (set n, u | n in s.apps && u in LastRead(s.apps[n]).Values :: u)
      + (set e | e in s.emitted :: e.clientId));
  }

  ghost predicate AppConverged(c: Name, app: App, d: ClientIds, foreign: set<Name>) {
    && app.phase.Idle? && app.queue == [] && app.incoming == multiset{}
    && c in d && !app.dirty && app.status.Some?
    && forall p :: p in app.lists && p in d ==> p in app.status.value && (p in foreign ==> Has(app.status.value, p, d))
  }

  /** Nothing is under way, and everything listed that exists is assigned, up to a client ID
      that changed within the cluster. */
  ghost predicate Converged(s: State) {
    s.unlisted == multiset{} && forall c :: c in s.apps ==> AppConverged(c, s.apps[c], s.directory, s.foreign)
  }

  lemma UnconvergedAppCanStep(s: State, c: Name) returns (step: Step)
    requires Ok(s) && c in s.apps && !AppConverged(c, s.apps[c], s.directory, s.foreign)
    ensures Enabled(s, step) && !Disturbs(step)
  {
    var app := s.apps[c];
    if app.phase.Begun? {
      var id := BegunAppCanSync(s, c);
      step := Sync(c, id);
    } else if app.phase.Synced? {
      step := Report(c);
    } else if app.phase.Reported? {
      step := Finish(c);
    } else if app.queue != [] || app.dirty || c !in s.directory {
      step := Begin(c);
    } else if app.incoming != multiset{} {
      var e :| e in app.incoming;
      step := Mark(c, e);
    } else {
      step := Sweep(c);
    }
  }

  /** A step is possible exactly as long as the cluster has not converged, so that with
      `NoInfiniteRun` every run without failures ends converged. */
  lemma UnconvergedCanStep(s: State) returns (step: Step)
    requires Ok(s) && !Converged(s)
    ensures Enabled(s, step) && !Disturbs(step)
  {
    if s.unlisted != multiset{} {
      var e :| e in s.unlisted;
      step := List(e);
    } else {
      var c :| c in s.apps && !AppConverged(c, s.apps[c], s.directory, s.foreign);
      step := UnconvergedAppCanStep(s, c);
    }
  }

  lemma ConvergedIsFinal(s: State, step: Step)
    requires Converged(s)
    ensures Enabled(s, step) ==> Disturbs(step)
  {
  }

  /** What the sweep makes good of: once the cluster has converged, every app that is listed and
      exists is assigned, also where its event was given up. Only within the cluster, where an
      event about a changed client ID has been missed, a former one remains. */
  lemma ConvergedMeansAssigned(s: State, p: Name, c: Name)
    requires Ok(s) && NoneForgotten(s) && Converged(s) && c in s.apps && p in s.apps[c].lists && p in s.directory
    ensures p in Assigned(s.apps[c])
    ensures p in s.foreign ==> Has(Assigned(s.apps[c]), p, s.directory)
    ensures c != p && HasEmitted(s, p) ==> (Has(Assigned(s.apps[c]), p, s.directory) <==> Pair(c, p) !in s.missed)
    ensures Pair(c, p) in s.missed ==> p !in s.foreign && Assigned(s.apps[c])[p] != s.directory[p]
  {
    assert AppConverged(c, s.apps[c], s.directory, s.foreign);
  }

  /** An app may be registered by a reconcile that breaks off before its event: it is reconciled
      again, so that once the cluster has converged, every app of it that got a client ID in the run
      is known by that to whoever lists it, but for those that have missed its event. */
  lemma NewIdsAreKnown(s: State, steps: seq<Step>, s': State, p: Name, c: Name)
    requires Ok(s) && s.emitted == {} && Run(s, steps, s') && Converged(s')
    requires p in s'.apps && c in s'.apps && c != p && p in s'.apps[c].lists && !Has(s.directory, p, s'.directory)
    ensures Has(Assigned(s'.apps[c]), p, s'.directory) <==> Pair(c, p) !in s'.missed
  {
    RunKeepsInvariant(s, steps, s');
    RunKeepsAnnounced(s, steps, s', s.directory);
    assert AppConverged(p, s'.apps[p], s'.directory, s'.foreign);
    ConvergedMeansAssigned(s', p, c);
  }
}
