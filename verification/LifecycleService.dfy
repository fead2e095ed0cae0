/** The lifecycle service: transitions become events, which are retained until their outbox row is inserted. */
module LifecycleService {
  import opened Common
  import opened Events
  import opened Pipeline
  import opened PipelineInvariant
  import opened Lifecycle
  import opened Deployment
  import Keys

  datatype Metadata = Metadata(id: string, at: Time)

  predicate ValidMetadata(m: Option<Metadata>) {
    m.Some? ==> Keys.IsEventId(m.value.id) && m.value.at != ZERO_TIME
  }

  /** One observation with what the outside world answers: fresh metadata or an error, and the fate of the insertion of a
      retained event and of a new one. */
  datatype Input = Input(observation: Observation, metadata: Option<Metadata>, retry: Fault, insert: Fault)

  function NewGameOutboxEvent(t: Transition, m: Metadata): Event {
    Event(m.id, m.at, GAME_EVENT_VERSION, t.subject, t.gameId, t.roomId)
  }

  // ---------- the service as a function, with its history ----------

  /** `built` lists the events built and `stored` those whose row was inserted, each in order. */
  datatype Service = Service(tracker: Tracker, pending: Option<Event>, built: seq<Event>, stored: seq<Event>)

  const START := Service(EMPTY, None, [], [])

  /** The insertion ignores an ID that is already there. */
  function Inserted(stored: seq<Event>, e: Event, fault: Fault): seq<Event> {
    if fault.Lands() && e !in stored then stored + [e] else stored
  }

  /** The tracker is consulted unless a retained event still cannot be inserted. */
  predicate Reaches(s: Service, input: Input) {
    s.pending.None? || input.retry.Works?
  }

  function Flushed(s: Service, input: Input): Service {
    if s.pending.None? then s
    else s.(stored := Inserted(s.stored, s.pending.value, input.retry),
            pending := if input.retry.Works? then None else s.pending)
  }

  function Announced(s: Service, input: Input): Service {
    var (tracker, transition) := Observed(s.tracker, input.observation);
    if transition.None? || input.metadata.None? then s.(tracker := tracker)
    else
      var e := NewGameOutboxEvent(transition.value, input.metadata.value);
      Service(tracker, if input.insert.Works? then None else Some(e),
              s.built + [e], Inserted(s.stored, e, input.insert))
  }

  function Served(s: Service, input: Input): Service {
    var flushed := Flushed(s, input);
    if Reaches(s, input) then Announced(flushed, input) else flushed
  }

  /** Whether Observe reports an error, after its tracker has been consulted or before. */
  predicate AnnounceFails(s: Service, input: Input) {
    Observed(s.tracker, input.observation).1.Some? && (input.metadata.None? || !input.insert.Works?)
  }

  function Serve(inputs: seq<Input>): Service {
    if inputs == [] then START else Served(Serve(inputs[..|inputs| - 1]), inputs[|inputs| - 1])
  }

  /** The inputs whose observation reached the tracker. */
  function Reached(inputs: seq<Input>): seq<Input> {
    if inputs == [] then []
    else
      var prefix, last := inputs[..|inputs| - 1], inputs[|inputs| - 1];
      if Reaches(Serve(prefix), last) then Reached(prefix) + [last] else Reached(prefix)
  }

  function Observations(inputs: seq<Input>): (observations: seq<Observation>)
    ensures |observations| == |inputs|
  {
    if inputs == [] then [] else Observations(inputs[..|inputs| - 1]) + [inputs[|inputs| - 1].observation]
  }

  /** The tracker's emissions on a trace, each stamped with the metadata drawn for it; one whose metadata could not be
      drawn is lost, because the tracker has already moved on. */
  function Stamped(inputs: seq<Input>): seq<Event> {
    if inputs == [] then []
    else
      var n := |inputs| - 1;
      var transition := Emitted(Observations(inputs), n);
      Stamped(inputs[..n])
      + if transition.Some? && inputs[n].metadata.Some?
        then [NewGameOutboxEvent(transition.value, inputs[n].metadata.value)] else []
  }

  predicate FreshIds(inputs: seq<Input>) {
    forall i, j :: 0 <= i < j < |inputs| && inputs[i].metadata.Some? && inputs[j].metadata.Some? ==>
                     inputs[i].metadata.value.id != inputs[j].metadata.value.id
  }

  lemma {:induction false} BuiltFromInputs(inputs: seq<Input>)
    ensures forall e :: e in Serve(inputs).built ==>
                          exists i :: 0 <= i < |inputs| && inputs[i].metadata.Some? && inputs[i].metadata.value.id == e.id
  {
    if inputs != [] {
      var n := |inputs| - 1;
      BuiltFromInputs(inputs[..n]);
      forall e | e in Serve(inputs).built
        ensures exists i :: 0 <= i < |inputs| && inputs[i].metadata.Some? && inputs[i].metadata.value.id == e.id
      {
        if e in Serve(inputs[..n]).built {
          var i :| 0 <= i < n && inputs[..n][i].metadata.Some? && inputs[..n][i].metadata.value.id == e.id;
          assert inputs[i] == inputs[..n][i];
        }
      }
    }
  }

  /** What is built, then, is exactly the stamped emissions of the observations that reached the tracker. */
  lemma {:induction false} BuiltIsStamped(inputs: seq<Input>)
    ensures Serve(inputs).built == Stamped(Reached(inputs))
    ensures Serve(inputs).tracker == After(Observations(Reached(inputs)))
  {
    if inputs != [] {
      var prefix, last := inputs[..|inputs| - 1], inputs[|inputs| - 1];
      BuiltIsStamped(prefix);
      if Reaches(Serve(prefix), last) {
        var reached := Reached(inputs);
        assert reached[..|reached| - 1] == Reached(prefix);
        assert Observations(reached)[..|reached| - 1] == Observations(Reached(prefix));
      }
    }
  }

  lemma OneMoreServed(inputs: seq<Input>, input: Input)
    ensures Serve(inputs + [input]) == Served(Serve(inputs), input)
    ensures Reached(inputs + [input]) == if Reaches(Serve(inputs), input) then Reached(inputs) + [input] else Reached(inputs)
  {
    assert (inputs + [input])[..|inputs|] == inputs;
  }

  lemma OneMoreObserved(inputs: seq<Input>, input: Input)
    ensures Observations(inputs + [input]) == Observations(inputs) + [input.observation]
  {
    assert (inputs + [input])[..|inputs|] == inputs;
  }

  /** For instance, a game whose start found no metadata: no event is ever built for it, although the next observation
      of the running game finds metadata again. */
  lemma StartWithoutMetadataIsLost(m: Metadata) returns (inputs: seq<Input>)
    ensures Emissions(Observations(Reached(inputs))) == [Transition(SUBJECT_STARTED, 1, "a")]
    ensures Serve(inputs).built == [] && Serve(inputs).pending == None
  {
    var select, play := Observation("ChampSelect", 1, "a"), Observation("InProgress", 0, "");
    var first, second, third := Input(select, None, Works, Works), Input(play, None, Works, Works), Input(play, Some(m), Works, Works);
    inputs := [] + [first] + [second] + [third];
    OneMoreServed([], first);
    OneMoreServed([] + [first], second);
    OneMoreServed([] + [first] + [second], third);
    ObservedOnce(first, second, third, select, play);
  }

  lemma ObservedOnce(first: Input, second: Input, third: Input, select: Observation, play: Observation)
    requires first.observation == select && second.observation == third.observation == play
    requires select == Observation("ChampSelect", 1, "a") && play == Observation("InProgress", 0, "")
    ensures Emissions(Observations([] + [first] + [second] + [third])) == [Transition(SUBJECT_STARTED, 1, "a")]
  {
    OneMoreObserved([], first);
    OneMoreObserved([] + [first], second);
    OneMoreObserved([] + [first] + [second], third);
    OneMore([], select);
    OneMore([] + [select], play);
    OneMore([] + [select] + [play], play);
  }

  ghost predicate InOrder(s: Service) {
    && s.built == s.stored + (if s.pending.Some? && s.pending.value !in s.stored then [s.pending.value] else [])
    && (s.pending.Some? ==> s.built != [] && s.pending.value == s.built[|s.built| - 1])
  }

  lemma ServedInOrder(s: Service, input: Input)
    requires InOrder(s)
    requires input.metadata.Some? ==> forall e :: e in s.built ==> e.id != input.metadata.value.id
    ensures InOrder(Served(s, input))
  {
    var f := Flushed(s, input);
    assert InOrder(f) && f.built == s.built;
    if Reaches(s, input) {
      assert f.pending.None? && f.stored == f.built;
    }
  }

  /** The metadata of a later input names no event built before. */
  lemma LaterIdsAreNew(inputs: seq<Input>, n: nat)
    requires n < |inputs| && FreshIds(inputs)
    ensures inputs[n].metadata.Some? ==> forall e :: e in Serve(inputs[..n]).built ==> e.id != inputs[n].metadata.value.id
  {
    BuiltFromInputs(inputs[..n]);
    forall e | e in Serve(inputs[..n]).built && inputs[n].metadata.Some?
      ensures e.id != inputs[n].metadata.value.id
    {
      var i :| 0 <= i < n && inputs[..n][i].metadata.Some? && inputs[..n][i].metadata.value.id == e.id;
      assert inputs[..n][i] == inputs[i];
    }
  }

  lemma PrefixIsFresh(inputs: seq<Input>, n: nat)
    requires n <= |inputs| && FreshIds(inputs)
    ensures FreshIds(inputs[..n])
  {
    assert forall i :: 0 <= i < n ==> inputs[..n][i] == inputs[i];
  }

  lemma {:induction false} ServiceStaysInOrder(inputs: seq<Input>)
    requires FreshIds(inputs)
    ensures InOrder(Serve(inputs))
  {
    if inputs != [] {
      var n := |inputs| - 1;
      PrefixIsFresh(inputs, n);
      ServiceStaysInOrder(inputs[..n]);
      LaterIdsAreNew(inputs, n);
      ServedInOrder(Serve(inputs[..n]), inputs[n]);
    }
  }

  /** Never dropped, duplicated or reordered: at any time the inserted rows, followed by the retained event if its row is
      not there yet, are the stamped emissions in order; a retry inserts the identical event. */
  lemma RowsAreEmissionsInOrder(inputs: seq<Input>)
    requires FreshIds(inputs)
    ensures InOrder(Serve(inputs))
    ensures var s := Serve(inputs);
            s.stored + (if s.pending.Some? && s.pending.value !in s.stored then [s.pending.value] else [])
            == Stamped(Reached(inputs))
  {
    ServiceStaysInOrder(inputs);
    BuiltIsStamped(inputs);
  }

  // ---------- the service among other processes ----------

  function FlushSteps(instance: nat, pending: Option<Event>, retry: Fault): seq<Step> {
    if pending.None? then []
    else [if retry.Lands() then Enqueue(pending.value) else Nothing] + if retry.Works? then [Forget(instance)] else []
  }

  function AnnounceSteps(instance: nat, tracker: Tracker, input: Input): seq<Step> {
    var transition := Observed(tracker, input.observation).1;
    if transition.None? || input.metadata.None? then []
    else
      var e := NewGameOutboxEvent(transition.value, input.metadata.value);
      [Build(instance, e)] + FlushSteps(instance, Some(e), input.insert)
  }

  /** The calls one observation makes. */
  function Calls(instance: nat, s: Service, input: Input): seq<Step> {
    FlushSteps(instance, s.pending, input.retry)
    + if Reaches(s, input) then AnnounceSteps(instance, s.tracker, input) else []
  }

  /** The event is the record of that transition, with the ID and the time drawn for it. */
  predicate Carries(e: Event, t: Transition, m: Metadata) {
    && e.id == m.id && e.occurredAt == m.at && e.version == 1
    && e.subject == t.subject && e.gameId == t.gameId && e.roomId == t.roomId
  }

  /** Among the calls, an event is built exactly when the observation emits a transition and metadata is drawn, and the
      event inserted is that one or the one retained from before. */
  ghost predicate CallsCarry(own: seq<Step>, instance: nat, pending: Option<Event>, reached: bool,
                             transition: Option<Transition>, metadata: Option<Metadata>) {
    && ((exists e :: Build(instance, e) in own) <==> reached && transition.Some? && metadata.Some?)
    && (forall step :: step in own && step.Build? ==>
          step.instance == instance && transition.Some? && metadata.Some?
          && Carries(step.event, transition.value, metadata.value))
    && (forall step :: step in own && step.Enqueue? ==>
          Some(step.event) == pending
          || (transition.Some? && metadata.Some? && Carries(step.event, transition.value, metadata.value)))
  }

  lemma CallsAreCarried(instance: nat, s: Service, input: Input)
    ensures CallsCarry(Calls(instance, s, input), instance, s.pending, Reaches(s, input),
                       Observed(s.tracker, input.observation).1, input.metadata)
  {
    var own, transition := Calls(instance, s, input), Observed(s.tracker, input.observation).1;
    if Reaches(s, input) && transition.Some? && input.metadata.Some? {
      var e := NewGameOutboxEvent(transition.value, input.metadata.value);
      var before := FlushSteps(instance, s.pending, input.retry);
      assert own[|before|] == Build(instance, e);
    }
  }

  /** Other processes leave this instance's memory alone and do not draw its event ID. */
  predicate Foreign(step: Step, instance: nat, metadata: Option<Metadata>) {
    match step
    case Build(n, e) => n != instance && (metadata.Some? ==> e.id != metadata.value.id)
    case Forget(n) => n != instance
    case Crash(n) => n != instance
    case _ => true
  }

  ghost predicate AllForeign(others: Interference, instance: nat, metadata: Option<Metadata>) {
    forall k: nat, step :: step in others(k) ==> Foreign(step, instance, metadata)
  }

  predicate SameSlot(s: State, t: State, instance: nat) {
    (instance in s.pending <==> instance in t.pending)
    && (instance in s.pending ==> s.pending[instance] == t.pending[instance])
  }

  lemma {:induction false} ForeignStepsKeepSlot(s: State, steps: seq<Step>, instance: nat, metadata: Option<Metadata>)
    requires forall step :: step in steps ==> Foreign(step, instance, metadata)
    ensures SameSlot(s, Run(s, steps), instance)
    ensures s.built <= Run(s, steps).built && s.enqueued <= Run(s, steps).enqueued
    ensures metadata.Some? && !UsedId(s.built, metadata.value.id) ==> !UsedId(Run(s, steps).built, metadata.value.id)
  {
    RunGrows(s, steps);
    if steps != [] {
      var prefix, last := steps[..|steps| - 1], steps[|steps| - 1];
      ForeignStepsKeepSlot(s, prefix, instance, metadata);
      ForeignStepKeepsSlot(Run(s, prefix), last, instance, metadata);
    }
  }

  lemma ForeignStepKeepsSlot(s: State, step: Step, instance: nat, metadata: Option<Metadata>)
    requires Foreign(step, instance, metadata)
    ensures SameSlot(s, Next(s, step), instance)
    ensures metadata.Some? && !UsedId(s.built, metadata.value.id) ==> !UsedId(Next(s, step).built, metadata.value.id)
  {
    assert Next(s, step).built == if step.Build? && Enabled(s, step) then s.built + {step.event} else s.built;
  }

  class GameLifecycleService {
    const instance: nat
    const cluster: Cluster
    const tracker: GameLifecycleTracker
    var pending: Option<Event>

    constructor (instance: nat, cluster: Cluster)
      requires instance !in cluster.pending
      ensures this.instance == instance && this.cluster == cluster && fresh(tracker)
      ensures Valid() && View() == START
    {
      this.instance := instance;
      this.cluster := cluster;
      tracker := new GameLifecycleTracker();
      pending := None;
    }

    ghost predicate Valid()
      reads this, cluster, tracker
    {
      && (pending.None? ==> instance !in cluster.pending)
      && (pending.Some? ==> instance in cluster.pending && cluster.pending[instance] == pending.value
                            && pending.value in cluster.built && WellFormed(pending.value))
      && (tracker.View() == EMPTY || (tracker.gameId > 0 && tracker.roomId != ""))
    }

    /** The service without its history, which its behaviour does not depend on. */
    function View(): Service
      reads this, tracker
    {
      Service(tracker.View(), pending, [], [])
    }

    /** One observation: the slot and the tracker follow the service function, and the calls made, interleaved with those
        of other processes, form a run of the system. */
    method Observe(input: Input, others: Interference) returns (error: bool, ghost own: seq<Step>)
      requires Valid() && ValidMetadata(input.metadata)
      requires AllForeign(others, instance, input.metadata)
      requires input.metadata.Some? ==> !UsedId(cluster.built, input.metadata.value.id)
      modifies this`pending, tracker, cluster, cluster.outbox, cluster.broker, cluster.inbox
      ensures Valid()
      ensures tracker.View() == Served(old(View()), input).tracker && pending == Served(old(View()), input).pending
      ensures error <==> !Reaches(old(View()), input) || AnnounceFails(old(View()), input)
      ensures error <==>
                || (old(pending).Some? && !input.retry.Works?)
                || (Observed(old(tracker.View()), input.observation).1.Some? && (input.metadata.None? || !input.insert.Works?))
      ensures var transition := Observed(old(tracker.View()), input.observation).1;
              if old(pending).Some? && !input.retry.Works? then pending == old(pending) && tracker.View() == old(tracker.View())
              else
                && (pending.Some? <==> transition.Some? && input.metadata.Some? && !input.insert.Works?)
                && (pending.Some? ==> Carries(pending.value, transition.value, input.metadata.value))
      ensures own == Calls(instance, old(View()), input)
      ensures CallsCarry(own, instance, old(pending), old(pending).None? || input.retry.Works?,
                         Observed(old(tracker.View()), input.observation).1, input.metadata)
      ensures cluster.View() == Run(old(cluster.View()), Weave(own, others))
    {
      ghost var start := cluster.View();
      CallsAreCarried(instance, View(), input);
      assert Weave([], others) == [];
      var calls;
      error, calls, own := Flush(input, others, start);
      if !error {
        error, own := Announce(input, others, calls, start, own);
      }
    }

    /** Tries to insert the event retained from an earlier observation. */
    method Flush(input: Input, others: Interference, ghost start: State)
      returns (failed: bool, calls: nat, ghost own: seq<Step>)
      requires Valid()
      requires AllForeign(others, instance, input.metadata)
      requires cluster.View() == Run(start, Weave([], others))
      modifies this`pending, cluster, cluster.outbox, cluster.broker, cluster.inbox
      ensures Valid()
      ensures failed <==> !(old(pending).None? || input.retry.Works?)
      ensures pending == if failed then old(pending) else None
      ensures own == FlushSteps(instance, old(pending), input.retry) && calls == |own|
      ensures cluster.View() == Run(start, Weave(own, others))
      ensures input.metadata.Some? && !UsedId(old(cluster.built), input.metadata.value.id) ==>
                !UsedId(cluster.built, input.metadata.value.id)
    {
      own, failed, calls := [], false, 0;
      if pending.Some? {
        failed, own := EnqueuePending(input.retry, input.metadata, others, 0, start, []);
        calls := if failed then 1 else 2;
      }
    }

    /** Consults the tracker and, on a transition, retains and inserts its event. */
    method Announce(input: Input, others: Interference, calls: nat, ghost start: State, ghost before: seq<Step>)
      returns (error: bool, ghost own: seq<Step>)
      requires Valid() && pending.None? && ValidMetadata(input.metadata)
      requires AllForeign(others, instance, input.metadata)
      requires input.metadata.Some? ==> !UsedId(cluster.built, input.metadata.value.id)
      requires calls == |before| && cluster.View() == Run(start, Weave(before, others))
      modifies this`pending, tracker, cluster, cluster.outbox, cluster.broker, cluster.inbox
      ensures Valid()
      ensures tracker.View() == Announced(old(View()), input).tracker && pending == Announced(old(View()), input).pending
      ensures error <==> AnnounceFails(old(View()), input)
      ensures own == before + AnnounceSteps(instance, old(tracker.View()), input)
      ensures cluster.View() == Run(start, Weave(own, others))
    {
      own, error := before, false;
      var transition := tracker.Observe(input.observation);
      if transition.None? {
        return;
      }
      if input.metadata.None? {
        return true, own;
      }
      var e := NewGameOutboxEvent(transition.value, input.metadata.value);
      error, own := RetainAndEnqueue(e, input, others, calls, start, own);
    }

    method RetainAndEnqueue(e: Event, input: Input, others: Interference, calls: nat,
                            ghost start: State, ghost before: seq<Step>) returns (error: bool, ghost own: seq<Step>)
      requires Valid() && pending.None? && WellFormed(e)
      requires input.metadata.Some? && input.metadata.value.id == e.id && !UsedId(cluster.built, e.id)
      requires AllForeign(others, instance, input.metadata)
      requires calls == |before| && cluster.View() == Run(start, Weave(before, others))
      modifies this`pending, cluster, cluster.outbox, cluster.broker, cluster.inbox
      ensures Valid() && pending == if input.insert.Works? then None else Some(e)
      ensures error <==> !input.insert.Works?
      ensures own == before + ([Build(instance, e)] + FlushSteps(instance, Some(e), input.insert))
      ensures cluster.View() == Run(start, Weave(own, others))
    {
      own := RetainEvent(e, input.metadata, others, calls, start, before);
      error, own := EnqueuePending(input.insert, input.metadata, others, calls + 1, start, own);
    }

    method RetainEvent(e: Event, metadata: Option<Metadata>, others: Interference, calls: nat,
                       ghost start: State, ghost before: seq<Step>) returns (ghost own: seq<Step>)
      requires Valid() && pending.None? && WellFormed(e)
      requires metadata.Some? && metadata.value.id == e.id && !UsedId(cluster.built, e.id)
      requires AllForeign(others, instance, metadata)
      requires calls == |before| && cluster.View() == Run(start, Weave(before, others))
      modifies this`pending, cluster, cluster.outbox, cluster.broker, cluster.inbox
      ensures Valid() && pending == Some(e)
      ensures own == before + [Build(instance, e)] && cluster.View() == Run(start, Weave(own, others))
    {
      ForeignStepsKeepSlot(cluster.View(), others(calls), instance, metadata);
      cluster.Interfere(others(calls));
      ghost var step := cluster.Retain(instance, e);
      WeaveStep(start, before, others, step);
      own := before + [step];
      pending := Some(e);
    }

    method EnqueuePending(fault: Fault, metadata: Option<Metadata>, others: Interference, calls: nat,
                          ghost start: State, ghost before: seq<Step>)
      returns (failed: bool, ghost own: seq<Step>)
      requires Valid() && pending.Some?
      requires AllForeign(others, instance, metadata)
      requires calls == |before| && cluster.View() == Run(start, Weave(before, others))
      modifies this`pending, cluster, cluster.outbox, cluster.broker, cluster.inbox
      ensures Valid()
      ensures pending == if fault.Works? then None else old(pending)
      ensures failed <==> !fault.Works?
      ensures own == before + FlushSteps(instance, old(pending), fault)
      ensures cluster.View() == Run(start, Weave(own, others))
      ensures metadata.Some? && !UsedId(old(cluster.built), metadata.value.id) ==> !UsedId(cluster.built, metadata.value.id)
    {
      failed, own := InsertPending(fault, metadata, others, calls, start, before);
      if !failed {
        own := ReleaseEvent(metadata, others, calls + 1, start, own);
      }
    }

    method InsertPending(fault: Fault, metadata: Option<Metadata>, others: Interference, calls: nat,
                         ghost start: State, ghost before: seq<Step>)
      returns (failed: bool, ghost own: seq<Step>)
      requires Valid() && pending.Some?
      requires AllForeign(others, instance, metadata)
      requires calls == |before| && cluster.View() == Run(start, Weave(before, others))
      modifies cluster, cluster.outbox, cluster.broker, cluster.inbox
      ensures Valid()
      ensures failed <==> !fault.Works?
      ensures !failed ==> pending.value in cluster.enqueued
      ensures own == before + [if fault.Lands() then Enqueue(pending.value) else Nothing]
      ensures cluster.View() == Run(start, Weave(own, others))
      ensures metadata.Some? && !UsedId(old(cluster.built), metadata.value.id) ==> !UsedId(cluster.built, metadata.value.id)
    {
      ForeignStepsKeepSlot(cluster.View(), others(calls), instance, metadata);
      cluster.Interfere(others(calls));
      var inserted, step := cluster.EnqueueEvent(pending.value, fault);
      WeaveStep(start, before, others, step);
      own := before + [step];
      failed := inserted.Error?;
    }

    method ReleaseEvent(metadata: Option<Metadata>, others: Interference, calls: nat,
                        ghost start: State, ghost before: seq<Step>) returns (ghost own: seq<Step>)
      requires Valid() && pending.Some? && pending.value in cluster.enqueued
      requires AllForeign(others, instance, metadata)
      requires calls == |before| && cluster.View() == Run(start, Weave(before, others))
      modifies this`pending, cluster, cluster.outbox, cluster.broker, cluster.inbox
      ensures Valid() && pending.None?
      ensures own == before + [Forget(instance)] && cluster.View() == Run(start, Weave(own, others))
      ensures metadata.Some? && !UsedId(old(cluster.built), metadata.value.id) ==> !UsedId(cluster.built, metadata.value.id)
    {
      ForeignStepsKeepSlot(cluster.View(), others(calls), instance, metadata);
      cluster.Interfere(others(calls));
      ghost var step := cluster.Release(instance);
      WeaveStep(start, before, others, step);
      own := before + [step];
      pending := None;
    }
  }
}
