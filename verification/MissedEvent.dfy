/** A run in which an event is missed: a producer is deleted and created anew while a consumer
    that has its name in the queue has read the directory, but has not settled its queue. */
module MissedEvent {

  import opened Cascade
  import opened Wrappers

  const OF_C := Event("c", "9")
  const OF_P := Event("p", "2")
  const LOST := Pair("c", "p")

  const FIRST: ClientIds := map["p" := "1", "c" := "9"]
  const BETWEEN: ClientIds := map["c" := "9"]
  const SECOND: ClientIds := BETWEEN["p" := "2"]

  /** What the consumer has read before the producer is deleted. */
  const READ := Synced(["p"], map["p" := "1"])

  function Producer(status: Option<ClientIds>, phase: Phase): App {
    App({}, status, status.None?, [], multiset{}, phase)
  }

  function Consumer(queue: seq<string>, incoming: multiset<Event>, phase: Phase): App {
    App({"p"}, Some(map["p" := "1"]), false, queue, incoming, phase)
  }

  function Both(p: App, c: App, d: ClientIds, unlisted: multiset<Event>, emitted: set<Event>, missed: set<Pair>): State {
    State(map["p" := p, "c" := c], d, {}, unlisted, emitted, missed)
  }

  const REGISTERED := Producer(None, Synced([], map[]))
  const READER := Consumer(["p"], multiset{}, READ)

  // -------------------------------------------------------------- states

  function Settled(): State {
    Both(Producer(Some(map[]), Idle), Consumer(["p"], multiset{}, Idle), FIRST, multiset{}, {}, {})
  }

  function ConsumerBegun(): State {
    Both(Producer(Some(map[]), Idle), Consumer(["p"], multiset{}, Begun(["p"])), FIRST, multiset{}, {}, {})
  }

  function ConsumerSynced(): State {
    Both(Producer(Some(map[]), Idle), READER, FIRST, multiset{OF_C}, {OF_C}, {})
  }

  function ProducerRemoved(): State {
    State(map["c" := READER], BETWEEN, {}, multiset{OF_C}, {OF_C}, {})
  }

  function ProducerCreated(): State {
    Both(Producer(None, Idle), READER, BETWEEN, multiset{OF_C}, {OF_C}, {})
  }

  function ProducerBegun(): State {
    Both(Producer(None, Begun([])), READER, BETWEEN, multiset{OF_C}, {OF_C}, {})
  }

  function ProducerSynced(): State {
    Both(REGISTERED, READER, SECOND, multiset{OF_C, OF_P}, {OF_C, OF_P}, {})
  }

  function MarkOnItsWay(): State {
    Both(REGISTERED, Consumer(["p"], multiset{OF_P}, READ), SECOND, multiset{OF_C}, {OF_C, OF_P}, {})
  }

  function MarkMissed(): State {
    Both(REGISTERED, READER, SECOND, multiset{OF_C}, {OF_C, OF_P}, {LOST})
  }

  function ConsumerReported(): State {
    Both(REGISTERED, Consumer(["p"], multiset{}, Reported(["p"])), SECOND, multiset{OF_C}, {OF_C, OF_P}, {LOST})
  }

  function ConsumerFinished(): State {
    Both(REGISTERED, Consumer([], multiset{}, Idle), SECOND, multiset{OF_C}, {OF_C, OF_P}, {LOST})
  }

  function AllListed(): State {
    Both(REGISTERED, Consumer([], multiset{}, Idle), SECOND, multiset{}, {OF_C, OF_P}, {LOST})
  }

  function ProducerReported(): State {
    Both(Producer(Some(map[]), Reported([])), Consumer([], multiset{}, Idle), SECOND, multiset{}, {OF_C, OF_P}, {LOST})
  }

  function AllFinished(): State {
    Both(Producer(Some(map[]), Idle), Consumer([], multiset{}, Idle), SECOND, multiset{}, {OF_C, OF_P}, {LOST})
  }

  // --------------------------------------------------------------- steps

  ghost predicate Leads(s: State, step: Step, s': State) {
    Enabled(s, step) && Apply(s, step) == s'
  }

  lemma SameState(t: State, s: State)
    requires t.apps.Keys == s.apps.Keys && forall n :: n in s.apps ==> t.apps[n] == s.apps[n]
    requires t == s.(apps := t.apps)
    ensures t == s
  {
    assert t.apps == s.apps;
  }

  lemma SecondIdIsNew()
    ensures IsNewId(ProducerBegun(), "2")
  {
    var p, c := ProducerBegun().apps["p"], ProducerBegun().apps["c"];
    assert "2" !in Assigned(p).Values && "2" !in LastRead(p).Values;
    assert "2" !in Assigned(c).Values && "2" !in LastRead(c).Values;
  }

  lemma NothingToRead()
    ensures Readable(Producer(None, Begun([])), SECOND) == map[]
  {
  }

  lemma ConsumerIsMarked()
    ensures Listed(READER, "c", OF_P) == Consumer(["p"], multiset{OF_P}, READ)
  {
  }

  lemma ConsumerBegins()
    ensures Leads(Settled(), Begin("c"), ConsumerBegun())
  {
    SameState(Apply(Settled(), Begin("c")), ConsumerBegun());
  }

  lemma ConsumerReads()
    ensures Leads(ConsumerBegun(), Sync("c", ""), ConsumerSynced())
  {
    assert Readable(Consumer(["p"], multiset{}, Begun(["p"])), FIRST) == map["p" := "1"];
    SameState(Apply(ConsumerBegun(), Sync("c", "")), ConsumerSynced());
  }

  lemma ProducerIsRemoved()
    ensures Leads(ConsumerSynced(), Remove("p", false), ProducerRemoved())
  {
    assert FIRST - {"p"} == BETWEEN;
    SameState(Apply(ConsumerSynced(), Remove("p", false)), ProducerRemoved());
  }

  lemma ProducerIsCreated()
    ensures Leads(ProducerRemoved(), Create("p", {}), ProducerCreated())
  {
    assert map["c" := READER]["p" := Producer(None, Idle)] == map["p" := Producer(None, Idle), "c" := READER];
  }

  lemma ProducerBegins()
    ensures Leads(ProducerCreated(), Begin("p"), ProducerBegun())
  {
    SameState(Apply(ProducerCreated(), Begin("p")), ProducerBegun());
  }

  lemma RegisteringEmits()
    requires Enabled(ProducerBegun(), Sync("p", "2"))
    ensures var s := Apply(ProducerBegun(), Sync("p", "2"));
            s.directory == SECOND && s.unlisted == multiset{OF_C, OF_P} && s.emitted == {OF_C, OF_P} && s.missed == {}
  {
  }

  lemma ProducerIsRegistered()
    ensures Leads(ProducerBegun(), Sync("p", "2"), ProducerSynced())
  {
    SecondIdIsNew();
    NothingToRead();
    RegisteringEmits();
    SameState(Apply(ProducerBegun(), Sync("p", "2")), ProducerSynced());
  }

  lemma EventIsListed()
    ensures Leads(ProducerSynced(), List(OF_P), MarkOnItsWay())
  {
    ConsumerIsMarked();
    assert ProducerSynced().unlisted - multiset{OF_P} == multiset{OF_C};
    SameState(Apply(ProducerSynced(), List(OF_P)), MarkOnItsWay());
  }

  lemma MarkIsMissed()
    ensures Leads(MarkOnItsWay(), Mark("c", OF_P), MarkMissed())
  {
    QueueEntriesAfterMark(["p"], "p");
    SameState(Apply(MarkOnItsWay(), Mark("c", OF_P)), MarkMissed());
  }

  lemma ConsumerReports()
    ensures Leads(MarkMissed(), Report("c"), ConsumerReported())
  {
    SameState(Apply(MarkMissed(), Report("c")), ConsumerReported());
  }

  lemma ConsumerFinishes()
    ensures Leads(ConsumerReported(), Finish("c"), ConsumerFinished())
  {
    SameState(Apply(ConsumerReported(), Finish("c")), ConsumerFinished());
  }

  lemma OwnEventIsListed()
    ensures Leads(ConsumerFinished(), List(OF_C), AllListed())
  {
    SameState(Apply(ConsumerFinished(), List(OF_C)), AllListed());
  }

  lemma ProducerReports()
    ensures Leads(AllListed(), Report("p"), ProducerReported())
  {
    SameState(Apply(AllListed(), Report("p")), ProducerReported());
  }

  lemma ProducerFinishes()
    ensures Leads(ProducerReported(), Finish("p"), AllFinished())
  {
    assert After(Producer(Some(map[]), Reported([])), Finish("p")) == Producer(Some(map[]), Idle);
    SameState(Apply(ProducerReported(), Finish("p")), AllFinished());
  }

  // ----------------------------------------------------------------- run

  /** No failure is among the steps. */
  predicate IsUndisturbed(steps: seq<Step>) {
    forall step :: step in steps ==> !Fails(step)
  }

  lemma Lead(s: State, step: Step, next: State, rest: seq<Step>, s': State) returns (steps: seq<Step>)
    requires Leads(s, step, next) && Run(next, rest, s') && IsUndisturbed(rest) && !Fails(step)
    ensures Run(s, steps, s') && IsUndisturbed(steps)
  {
    steps := [step] + rest;
    assert steps[1..] == rest;
  }

  lemma FromConsumerFinished(rest: seq<Step>, s': State) returns (steps: seq<Step>)
    requires Run(AllFinished(), rest, s') && IsUndisturbed(rest)
    ensures Run(ConsumerFinished(), steps, s') && IsUndisturbed(steps)
  {
    steps := rest;
    ProducerFinishes();
    steps := Lead(ProducerReported(), Finish("p"), AllFinished(), steps, s');
    ProducerReports();
    steps := Lead(AllListed(), Report("p"), ProducerReported(), steps, s');
    OwnEventIsListed();
    steps := Lead(ConsumerFinished(), List(OF_C), AllListed(), steps, s');
  }

  lemma FromMarkOnItsWay(rest: seq<Step>, s': State) returns (steps: seq<Step>)
    requires Run(ConsumerFinished(), rest, s') && IsUndisturbed(rest)
    ensures Run(MarkOnItsWay(), steps, s') && IsUndisturbed(steps)
  {
    steps := rest;
    ConsumerFinishes();
    steps := Lead(ConsumerReported(), Finish("c"), ConsumerFinished(), steps, s');
    ConsumerReports();
    steps := Lead(MarkMissed(), Report("c"), ConsumerReported(), steps, s');
    MarkIsMissed();
    steps := Lead(MarkOnItsWay(), Mark("c", OF_P), MarkMissed(), steps, s');
  }

  lemma FromProducerBegun(rest: seq<Step>, s': State) returns (steps: seq<Step>)
    requires Run(MarkOnItsWay(), rest, s') && IsUndisturbed(rest)
    ensures Run(ProducerBegun(), steps, s') && IsUndisturbed(steps)
  {
    steps := rest;
    EventIsListed();
    steps := Lead(ProducerSynced(), List(OF_P), MarkOnItsWay(), steps, s');
    ProducerIsRegistered();
    steps := Lead(ProducerBegun(), Sync("p", "2"), ProducerSynced(), steps, s');
  }

  lemma FromConsumerSynced(rest: seq<Step>, s': State) returns (steps: seq<Step>)
    requires Run(ProducerBegun(), rest, s') && IsUndisturbed(rest)
    ensures Run(ConsumerSynced(), steps, s') && IsUndisturbed(steps)
  {
    steps := rest;
    ProducerBegins();
    steps := Lead(ProducerCreated(), Begin("p"), ProducerBegun(), steps, s');
    ProducerIsCreated();
    steps := Lead(ProducerRemoved(), Create("p", {}), ProducerCreated(), steps, s');
    ProducerIsRemoved();
    steps := Lead(ConsumerSynced(), Remove("p", false), ProducerRemoved(), steps, s');
  }

  lemma FromSettled(rest: seq<Step>, s': State) returns (steps: seq<Step>)
    requires Run(ConsumerSynced(), rest, s') && IsUndisturbed(rest)
    ensures Run(Settled(), steps, s') && IsUndisturbed(steps)
  {
    steps := rest;
    ConsumerReads();
    steps := Lead(ConsumerBegun(), Sync("c", ""), ConsumerSynced(), steps, s');
    ConsumerBegins();
    steps := Lead(Settled(), Begin("c"), ConsumerBegun(), steps, s');
  }

  lemma BeginsInOrder()
    ensures Cascade.Ok(Settled()) && Settled().emitted == {} && Settled().missed == {}
  {
  }

  lemma EndsStale()
    ensures var s := AllFinished();
            && Quiet(s) && Converged(s) && HasEmitted(s, "p")
            && "c" in s.apps && "p" in s.apps["c"].lists && !Has(Assigned(s.apps["c"]), "p", s.directory)
  {
  }

  /** A consumer can be left with a former client ID for good: without any failure, the cluster
      comes to be quiet and has converged, but the consumer has missed the event. */
  lemma StaleForGood() returns (s: State, steps: seq<Step>, s': State)
    ensures Cascade.Ok(s) && s.emitted == {} && s.missed == {} && Run(s, steps, s') && IsUndisturbed(steps)
    ensures Quiet(s') && Converged(s') && HasEmitted(s', "p")
    ensures "c" in s'.apps && "p" in s'.apps["c"].lists && !Has(Assigned(s'.apps["c"]), "p", s'.directory)
  {
    s, s' := Settled(), AllFinished();
    steps := FromConsumerFinished([], s');
    steps := FromMarkOnItsWay(steps, s');
    steps := FromProducerBegun(steps, s');
    steps := FromConsumerSynced(steps, s');
    steps := FromSettled(steps, s');
    BeginsInOrder();
    EndsStale();
  }
}
