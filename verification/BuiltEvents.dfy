/** What is in the events an instance builds: the tracker's emissions, in order. */
module BuiltEvents {
  import opened Events
  import opened Lifecycle
  import opened LifecycleService

  /** Observation number `k` of those that reached the tracker emits a transition, and metadata is drawn for it. */
  predicate Builds(reached: seq<Input>, k: nat)
    requires k < |reached|
  {
    Emitted(Observations(reached), k).Some? && reached[k].metadata.Some?
  }

  /** The observations that built the events, one for each event and in order. */
  ghost predicate Sources(built: seq<Event>, reached: seq<Input>, at: seq<nat>) {
    && |at| == |built|
    && (forall i, j :: 0 <= i < j < |at| ==> at[i] < at[j])
    && (forall i :: 0 <= i < |at| ==> at[i] < |reached|)
    && (forall k :: 0 <= k < |reached| ==> (k in at <==> Builds(reached, k)))
    && (forall i :: 0 <= i < |at| ==> CarriesAt(built[i], reached, at[i]))
  }

  predicate CarriesAt(e: Event, reached: seq<Input>, k: nat)
    requires k < |reached|
  {
    Builds(reached, k) && Carries(e, Emitted(Observations(reached), k).value, reached[k].metadata.value)
  }

  lemma {:induction false} ObservationsPrefix(inputs: seq<Input>, k: nat)
    requires k <= |inputs|
    ensures Observations(inputs[..k]) == Observations(inputs)[..k]
    ensures k < |inputs| ==> Observations(inputs)[k] == inputs[k].observation
  {
    if k < |inputs| {
      var n := |inputs| - 1;
      ObservationsPrefix(inputs[..n], k);
      assert inputs[..n][..k] == inputs[..k];
    } else {
      assert inputs[..k] == inputs;
    }
  }

  lemma PrefixBuilds(inputs: seq<Input>, n: nat, k: nat)
    requires k < n <= |inputs|
    ensures Builds(inputs[..n], k) == Builds(inputs, k)
    ensures forall e :: CarriesAt(e, inputs[..n], k) == CarriesAt(e, inputs, k)
  {
    ObservationsPrefix(inputs, n);
    EmittedInPrefix(Observations(inputs), Observations(inputs[..n]), k);
  }

  /** One more input, which builds the event `e`. */
  lemma SourcesExtend(built: seq<Event>, inputs: seq<Input>, before: seq<nat>, e: Event)
    requires inputs != [] && Sources(built, inputs[..|inputs| - 1], before) && CarriesAt(e, inputs, |inputs| - 1)
    ensures Sources(built + [e], inputs, before + [|inputs| - 1])
  {
    var n := |inputs| - 1;
    forall k | 0 <= k < n
      ensures k in before <==> Builds(inputs, k)
    {
      PrefixBuilds(inputs, n, k);
    }
    forall i | 0 <= i < |before|
      ensures CarriesAt(built[i], inputs, before[i])
    {
      PrefixBuilds(inputs, n, before[i]);
    }
  }

  /** One more input, which builds nothing. */
  lemma SourcesStay(built: seq<Event>, inputs: seq<Input>, at: seq<nat>)
    requires inputs != [] && Sources(built, inputs[..|inputs| - 1], at) && !Builds(inputs, |inputs| - 1)
    ensures Sources(built, inputs, at)
  {
    var n := |inputs| - 1;
    forall k | 0 <= k < n
      ensures k in at <==> Builds(inputs, k)
    {
      PrefixBuilds(inputs, n, k);
    }
    forall i | 0 <= i < |at|
      ensures CarriesAt(built[i], inputs, at[i])
    {
      PrefixBuilds(inputs, n, at[i]);
    }
  }

  lemma {:induction false} StampedSources(inputs: seq<Input>) returns (at: seq<nat>)
    ensures Sources(Stamped(inputs), inputs, at)
  {
    at := [];
    if inputs != [] {
      var n := |inputs| - 1;
      at := StampedSources(inputs[..n]);
      var built := Stamped(inputs[..n]);
      if Builds(inputs, n) {
        SourcesExtend(built, inputs, at, Stamped(inputs)[|built|]);
        at := at + [n];
      } else {
        SourcesStay(built, inputs, at);
      }
    }
  }

  /** Each event built carries the subject, the game and the room of the transition emitted for its own observation, with
      the ID and the time drawn there; every emission that found metadata has its event. */
  lemma BuiltEventsCarryTheirEmissions(inputs: seq<Input>) returns (at: seq<nat>)
    ensures Sources(Serve(inputs).built, Reached(inputs), at)
  {
    BuiltIsStamped(inputs);
    at := StampedSources(Reached(inputs));
  }

  predicate AllDrawn(inputs: seq<Input>) { forall i :: 0 <= i < |inputs| ==> inputs[i].metadata.Some? }

  predicate Records(e: Event, t: Transition) { e.subject == t.subject && e.gameId == t.gameId && e.roomId == t.roomId }

  lemma {:induction false} AllStamped(inputs: seq<Input>)
    requires AllDrawn(inputs)
    ensures var emitted := Emissions(Observations(inputs));
            |Stamped(inputs)| == |emitted| && forall i :: 0 <= i < |emitted| ==> Records(Stamped(inputs)[i], emitted[i])
  {
    if inputs != [] {
      var n := |inputs| - 1;
      AllStamped(inputs[..n]);
      ObservationsPrefix(inputs, n);
    }
  }

  lemma {:induction false} ReachedAreInputs(inputs: seq<Input>)
    requires AllDrawn(inputs)
    ensures AllDrawn(Reached(inputs))
  {
    if inputs != [] {
      ReachedAreInputs(inputs[..|inputs| - 1]);
    }
  }

  /** When metadata can always be drawn, the events built are the tracker's emissions, one for one: a start, its end, the
      next start and so on, each of the last champion select before it. */
  lemma BuiltEventsAreEmissions(inputs: seq<Input>)
    requires AllDrawn(inputs)
    ensures var emitted, built := Emissions(Observations(Reached(inputs))), Serve(inputs).built;
            && |built| == |emitted|
            && (forall i :: 0 <= i < |built| ==> Records(built[i], emitted[i]))
            && (forall i :: 0 <= i < |built| ==> built[i].subject == if i % 2 == 0 then "game.started" else "game.ended")
  {
    BuiltIsStamped(inputs);
    ReachedAreInputs(inputs);
    AllStamped(Reached(inputs));
    TransitionsAlternate(Observations(Reached(inputs)));
  }
}
