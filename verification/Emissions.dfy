/** Over many observations: the rows an instance inserts are its tracker's emissions, each once and in order. */
module Emissions {
  import opened Common
  import opened Events
  import opened Pipeline
  import opened Lifecycle
  import opened Deployment
  import opened LifecycleService

  // ---------- the insertions among the calls ----------

  function Noted(stored: seq<Event>, step: Step): seq<Event> {
    if step.Enqueue? && step.event !in stored then stored + [step.event] else stored
  }

  /** The events inserted by these calls after those of `stored`, in order, each at its first insertion. */
  function Insertions(stored: seq<Event>, steps: seq<Step>): seq<Event> {
    if steps == [] then stored else Noted(Insertions(stored, steps[..|steps| - 1]), steps[|steps| - 1])
  }

  lemma {:induction false} InsertionsConcat(stored: seq<Event>, first: seq<Step>, second: seq<Step>)
    ensures Insertions(stored, first + second) == Insertions(Insertions(stored, first), second)
  {
    if second == [] {
      assert first + second == first;
    } else {
      var n := |second| - 1;
      var all := first + second;
      InsertionsConcat(stored, first, second[..n]);
      assert all[..|all| - 1] == first + second[..n] && all[|all| - 1] == second[n];
    }
  }

  /** All the calls of an instance over many observations. */
  function AllCalls(instance: nat, inputs: seq<Input>): seq<Step> {
    if inputs == [] then []
    else
      var n := |inputs| - 1;
      AllCalls(instance, inputs[..n]) + Calls(instance, Serve(inputs[..n]), inputs[n])
  }

  lemma FlushInserts(instance: nat, stored: seq<Event>, pending: Option<Event>, fault: Fault)
    ensures Insertions(stored, FlushSteps(instance, pending, fault))
            == if pending.Some? then Inserted(stored, pending.value, fault) else stored
  {
    if pending.Some? {
      var insert := if fault.Lands() then Enqueue(pending.value) else Nothing;
      assert [insert][..0] == [] && [insert, Forget(instance)][..1] == [insert];
      assert Insertions(stored, [insert]) == Inserted(stored, pending.value, fault);
    }
  }

  lemma AnnounceInserts(instance: nat, s: Service, input: Input)
    ensures Insertions(s.stored, AnnounceSteps(instance, s.tracker, input)) == Announced(s, input).stored
  {
    var transition := Observed(s.tracker, input.observation).1;
    if transition.Some? && input.metadata.Some? {
      var e := NewGameOutboxEvent(transition.value, input.metadata.value);
      InsertionsConcat(s.stored, [Build(instance, e)], FlushSteps(instance, Some(e), input.insert));
      assert [Build(instance, e)][..0] == [];
      FlushInserts(instance, s.stored, Some(e), input.insert);
    }
  }

  lemma ObservationInserts(instance: nat, s: Service, input: Input)
    ensures Insertions(s.stored, Calls(instance, s, input)) == Served(s, input).stored
  {
    var flush, announce := FlushSteps(instance, s.pending, input.retry), AnnounceSteps(instance, s.tracker, input);
    FlushInserts(instance, s.stored, s.pending, input.retry);
    if Reaches(s, input) {
      InsertionsConcat(s.stored, flush, announce);
      AnnounceInserts(instance, Flushed(s, input), input);
    } else {
      assert flush + [] == flush;
    }
  }

  /** The insertions among an instance's calls are those its service counts as stored, in that order. */
  lemma {:induction false} InsertionsAreStored(instance: nat, inputs: seq<Input>)
    ensures Insertions([], AllCalls(instance, inputs)) == Serve(inputs).stored
  {
    if inputs != [] {
      var n := |inputs| - 1;
      InsertionsAreStored(instance, inputs[..n]);
      InsertionsConcat([], AllCalls(instance, inputs[..n]), Calls(instance, Serve(inputs[..n]), inputs[n]));
      ObservationInserts(instance, Serve(inputs[..n]), inputs[n]);
    }
  }

  // ---------- the service and the system, tied together ----------

  /** Of all events of the system, those whose ID is in `ids` are this instance's; the slot and the insertions agree. */
  ghost predicate Tied(s: State, instance: nat, v: Service, ids: set<string>) {
    && s.enqueued <= s.built
    && (v.pending.None? ==> instance !in s.pending)
    && (v.pending.Some? ==> instance in s.pending && s.pending[instance] == v.pending.value && v.pending.value in v.built)
    && (forall e :: e in v.built ==> e.id in ids && e in s.built && (e in s.enqueued <==> e in v.stored))
    && (forall e :: e in v.stored ==> e in v.built)
    && (forall e :: e in s.built && e.id in ids ==> e in v.built)
  }

  /** Other processes leave this instance's slot, IDs and events alone. */
  predicate Elsewhere(step: Step, instance: nat, ids: set<string>) {
    match step
    case Build(n, e) => n != instance && e.id !in ids
    case Enqueue(e) => e.id !in ids
    case Forget(n) => n != instance
    case Crash(n) => n != instance
    case _ => true
  }

  lemma {:induction false} OthersKeepTied(s: State, steps: seq<Step>, instance: nat, v: Service, ids: set<string>)
    requires Tied(s, instance, v, ids) && forall step :: step in steps ==> Elsewhere(step, instance, ids)
    ensures Tied(Run(s, steps), instance, v, ids)
  {
    if steps != [] {
      var n := |steps| - 1;
      OthersKeepTied(s, steps[..n], instance, v, ids);
      OtherKeepsTied(Run(s, steps[..n]), steps[n], instance, v, ids);
    }
  }

  lemma OtherKeepsTied(s: State, step: Step, instance: nat, v: Service, ids: set<string>)
    requires Tied(s, instance, v, ids) && Elsewhere(step, instance, ids)
    ensures Tied(Next(s, step), instance, v, ids)
  {
    if Enabled(s, step) {
      match step
      case Build(n, e) =>
        assert Next(s, step) == s.(pending := s.pending[n := e], built := s.built + {e});
      case Enqueue(e) =>
        assert Next(s, step).enqueued == s.enqueued + {e} && Next(s, step).built == s.built;
      case _ =>
        assert Next(s, step).built == s.built && Next(s, step).enqueued == s.enqueued;
    }
  }

  /** What one of its own calls means to the service. */
  function Followed(v: Service, step: Step): Service {
    match step
    case Build(_, e) => v.(pending := Some(e), built := v.built + [e])
    case Enqueue(e) => v.(stored := Noted(v.stored, step))
    case Forget(_) => v.(pending := None)
    case _ => v
  }

  function FollowedAll(v: Service, steps: seq<Step>): Service {
    if steps == [] then v else Followed(FollowedAll(v, steps[..|steps| - 1]), steps[|steps| - 1])
  }

  predicate OwnCall(v: Service, step: Step, instance: nat, ids: set<string>) {
    match step
    case Nothing => true
    case Build(n, e) =>
      n == instance && v.pending.None? && WellFormed(e) && e.id in ids && forall f :: f in v.built ==> f.id != e.id
    case Enqueue(e) => v.pending == Some(e)
    case Forget(n) => n == instance && v.pending.Some? && v.pending.value in v.stored
    case _ => false
  }

  lemma OwnCallKeepsTied(s: State, step: Step, instance: nat, v: Service, ids: set<string>)
    requires Tied(s, instance, v, ids) && OwnCall(v, step, instance, ids)
    ensures Tied(Next(s, step), instance, Followed(v, step), ids)
  {
    match step
    case Nothing =>
    case Build(n, e) =>
      assert !UsedId(s.built, e.id);
      assert Next(s, step) == s.(pending := s.pending[n := e], built := s.built + {e});
    case Enqueue(e) =>
      assert Next(s, step).enqueued == s.enqueued + {e} && Next(s, step).built == s.built && Next(s, step).pending == s.pending;
    case Forget(n) =>
      assert Next(s, step) == s.(pending := s.pending - {n});
  }

  ghost predicate OwnCalls(v: Service, steps: seq<Step>, instance: nat, ids: set<string>) {
    forall k :: 0 <= k < |steps| ==> OwnCallAt(v, steps, instance, ids, k)
  }

  ghost predicate OwnCallAt(v: Service, steps: seq<Step>, instance: nat, ids: set<string>, k: nat)
    requires k < |steps|
  {
    OwnCall(FollowedAll(v, steps[..k]), steps[k], instance, ids)
  }

  lemma {:induction false} TrailStaysTied(before: seq<State>, after: seq<State>, own: seq<Step>, others: Interference,
                                          instance: nat, v: Service, ids: set<string>, k: nat)
    requires IsTrail(before, after, own, others) && Tied(after[0], instance, v, ids)
    requires OwnCalls(v, own, instance, ids) && k <= |own|
    requires forall i: nat, step :: step in others(i) ==> Elsewhere(step, instance, ids)
    ensures Tied(after[k], instance, FollowedAll(v, own[..k]), ids)
  {
    if k > 0 {
      var n := k - 1;
      TrailStaysTied(before, after, own, others, instance, v, ids, n);
      assert Leap(before, after, own, others, n) && OwnCallAt(v, own, instance, ids, n);
      OthersKeepTied(after[n], others(n), instance, FollowedAll(v, own[..n]), ids);
      OwnCallKeepsTied(before[n], own[n], instance, FollowedAll(v, own[..n]), ids);
      assert own[..k][..n] == own[..n];
    }
  }

  lemma {:induction false} FollowedConcat(v: Service, first: seq<Step>, second: seq<Step>)
    ensures FollowedAll(v, first + second) == FollowedAll(FollowedAll(v, first), second)
  {
    if second == [] {
      assert first + second == first;
    } else {
      var n := |second| - 1;
      var all := first + second;
      FollowedConcat(v, first, second[..n]);
      assert all[..|all| - 1] == first + second[..n] && all[|all| - 1] == second[n];
    }
  }

  lemma OwnCallsConcat(v: Service, first: seq<Step>, second: seq<Step>, instance: nat, ids: set<string>)
    requires OwnCalls(v, first, instance, ids) && OwnCalls(FollowedAll(v, first), second, instance, ids)
    ensures OwnCalls(v, first + second, instance, ids)
  {
    var all := first + second;
    forall k | 0 <= k < |all|
      ensures OwnCallAt(v, all, instance, ids, k)
    {
      if k < |first| {
        assert OwnCallAt(v, first, instance, ids, k) && all[..k] == first[..k];
      } else {
        var i := k - |first|;
        assert OwnCallAt(FollowedAll(v, first), second, instance, ids, i);
        assert all[..k] == first + second[..i];
        FollowedConcat(v, first, second[..i]);
      }
    }
  }

  // ---------- one observation, then many ----------

  lemma OneCall(v: Service, step: Step, instance: nat, ids: set<string>)
    requires OwnCall(v, step, instance, ids)
    ensures OwnCalls(v, [step], instance, ids) && FollowedAll(v, [step]) == Followed(v, step)
  {
    assert [step][..0] == [];
    forall k | 0 <= k < 1
      ensures OwnCallAt(v, [step], instance, ids, k)
    {
      assert [step][..k] == [];
    }
  }

  lemma FlushIsOwn(v: Service, e: Event, fault: Fault, instance: nat, ids: set<string>)
    requires v.pending == Some(e)
    ensures OwnCalls(v, FlushSteps(instance, v.pending, fault), instance, ids)
    ensures FollowedAll(v, FlushSteps(instance, v.pending, fault))
            == v.(stored := Inserted(v.stored, e, fault), pending := if fault.Works? then None else v.pending)
  {
    var insert := if fault.Lands() then Enqueue(e) else Nothing;
    OneCall(v, insert, instance, ids);
    if fault.Works? {
      var stored := Followed(v, insert);
      OneCall(stored, Forget(instance), instance, ids);
      OwnCallsConcat(v, [insert], [Forget(instance)], instance, ids);
      FollowedConcat(v, [insert], [Forget(instance)]);
    } else {
      assert [insert] + [] == [insert];
    }
  }

  lemma AnnouncementIsOwn(v: Service, e: Event, fault: Fault, instance: nat, ids: set<string>)
    requires OwnCall(v, Build(instance, e), instance, ids)
    ensures OwnCalls(v, [Build(instance, e)] + FlushSteps(instance, Some(e), fault), instance, ids)
    ensures FollowedAll(v, [Build(instance, e)] + FlushSteps(instance, Some(e), fault))
            == v.(pending := if fault.Works? then None else Some(e), built := v.built + [e],
                  stored := Inserted(v.stored, e, fault))
  {
    var built := Followed(v, Build(instance, e));
    OneCall(v, Build(instance, e), instance, ids);
    FlushIsOwn(built, e, fault, instance, ids);
    OwnCallsConcat(v, [Build(instance, e)], FlushSteps(instance, Some(e), fault), instance, ids);
    FollowedConcat(v, [Build(instance, e)], FlushSteps(instance, Some(e), fault));
  }

  /** The metadata drawn for this observation is well-formed and names no event built before. */
  ghost predicate FreshInput(v: Service, input: Input, ids: set<string>) {
    && ValidMetadata(input.metadata)
    && (input.metadata.Some? ==>
          input.metadata.value.id in ids && forall e :: e in v.built ==> e.id != input.metadata.value.id)
  }

  predicate KnownGame(t: Tracker) { t == EMPTY || (t.gameId > 0 && t.roomId != "") }

  lemma AnnounceIsOwn(v: Service, input: Input, instance: nat, ids: set<string>)
    requires FreshInput(v, input, ids) && KnownGame(v.tracker) && v.pending.None?
    ensures OwnCalls(v, AnnounceSteps(instance, v.tracker, input), instance, ids)
    ensures FollowedAll(v, AnnounceSteps(instance, v.tracker, input)) == Announced(v, input).(tracker := v.tracker)
  {
    var transition := Observed(v.tracker, input.observation).1;
    if transition.Some? && input.metadata.Some? {
      var e := NewGameOutboxEvent(transition.value, input.metadata.value);
      AnnouncementIsOwn(v, e, input.insert, instance, ids);
    }
  }

  lemma CallsAreOwn(v: Service, input: Input, instance: nat, ids: set<string>)
    requires FreshInput(v, input, ids) && KnownGame(v.tracker)
    ensures OwnCalls(v, Calls(instance, v, input), instance, ids)
    ensures FollowedAll(v, Calls(instance, v, input)) == Served(v, input).(tracker := v.tracker)
  {
    var flush, announce := FlushSteps(instance, v.pending, input.retry), AnnounceSteps(instance, v.tracker, input);
    var flushed := Flushed(v, input);
    if v.pending.Some? {
      FlushIsOwn(v, v.pending.value, input.retry, instance, ids);
    }
    assert OwnCalls(v, flush, instance, ids) && FollowedAll(v, flush) == flushed;
    if Reaches(v, input) {
      AnnounceIsOwn(flushed, input, instance, ids);
      OwnCallsConcat(v, flush, announce, instance, ids);
      FollowedConcat(v, flush, announce);
    } else {
      assert flush + [] == flush;
    }
  }

  lemma ObservationKeepsTied(s: State, v: Service, input: Input, others: Interference, instance: nat, ids: set<string>)
    requires Tied(s, instance, v, ids) && FreshInput(v, input, ids) && KnownGame(v.tracker)
    requires forall i: nat, step :: step in others(i) ==> Elsewhere(step, instance, ids)
    ensures Tied(Run(s, Weave(Calls(instance, v, input), others)), instance, Served(v, input), ids)
  {
    var own := Calls(instance, v, input);
    CallsAreOwn(v, input, instance, ids);
    var before, after := Trail(s, own, others);
    TrailStaysTied(before, after, own, others, instance, v, ids, |own|);
    assert own[..|own|] == own;
  }

  /** The system after many observations of one instance, other processes acting before each of its calls. */
  function Observing(s: State, instance: nat, inputs: seq<Input>, others: seq<Interference>): State
    requires |others| == |inputs|
  {
    if inputs == [] then s
    else
      var n := |inputs| - 1;
      Run(Observing(s, instance, inputs[..n], others[..n]), Weave(Calls(instance, Serve(inputs[..n]), inputs[n]), others[n]))
  }

  /** The IDs drawn by this instance. */
  function Drawn(inputs: seq<Input>): set<string> {
    set i | 0 <= i < |inputs| && inputs[i].metadata.Some? :: inputs[i].metadata.value.id
  }

  /** Every input's metadata is well-formed, all IDs differ, and all are among `ids`. */
  ghost predicate ProperInputs(inputs: seq<Input>, ids: set<string>) {
    && FreshIds(inputs)
    && forall i :: 0 <= i < |inputs| ==> ValidMetadata(inputs[i].metadata)
                                         && (inputs[i].metadata.Some? ==> inputs[i].metadata.value.id in ids)
  }

  lemma ServedKnowsItsGame(inputs: seq<Input>)
    ensures KnownGame(Serve(inputs).tracker)
  {
    BuiltIsStamped(inputs);
    TrackerRemembersLastSelect(Observations(Reached(inputs)));
  }

  lemma InputIsFresh(inputs: seq<Input>, n: nat, ids: set<string>)
    requires n < |inputs| && ProperInputs(inputs, ids)
    ensures FreshInput(Serve(inputs[..n]), inputs[n], ids)
  {
    LaterIdsAreNew(inputs, n);
  }

  lemma {:induction false} ObservingStaysTied(s: State, instance: nat, inputs: seq<Input>, others: seq<Interference>,
                                              ids: set<string>)
    requires |others| == |inputs| && Tied(s, instance, START, ids) && ProperInputs(inputs, ids)
    requires forall k, i: nat, step :: 0 <= k < |others| && step in others[k](i) ==> Elsewhere(step, instance, ids)
    ensures Tied(Observing(s, instance, inputs, others), instance, Serve(inputs), ids)
  {
    if inputs != [] {
      var n := |inputs| - 1;
      assert forall k :: 0 <= k < n ==> others[..n][k] == others[k];
      assert forall i :: 0 <= i < n ==> inputs[..n][i] == inputs[i];
      ObservingStaysTied(s, instance, inputs[..n], others[..n], ids);
      InputIsFresh(inputs, n, ids);
      ServedKnowsItsGame(inputs[..n]);
      ObservationKeepsTied(Observing(s, instance, inputs[..n], others[..n]), Serve(inputs[..n]), inputs[n], others[n], instance, ids);
    }
  }

  /** Whatever other processes do, the events of this instance that ever had a row inserted are exactly the stamped emissions
      of its tracker, without the last one if that is still retained, and its calls inserted them in that order. */
  lemma InsertedRowsAreEmissionsInOrder(s: State, instance: nat, inputs: seq<Input>, others: seq<Interference>)
    requires |others| == |inputs| && ProperInputs(inputs, Drawn(inputs))
    requires instance !in s.pending && s.enqueued <= s.built && forall e :: e in s.built ==> e.id !in Drawn(inputs)
    requires forall k, i: nat, step :: 0 <= k < |others| && step in others[k](i) ==> Elsewhere(step, instance, Drawn(inputs))
    ensures var v, t := Serve(inputs), Observing(s, instance, inputs, others);
            var inserted := Insertions([], AllCalls(instance, inputs));
            && (forall e :: e in inserted <==> e in t.enqueued && e.id in Drawn(inputs))
            && inserted + (if v.pending.Some? && v.pending.value !in inserted then [v.pending.value] else [])
               == Stamped(Reached(inputs))
  {
    InsertionsAreStored(instance, inputs);
    RowsAreEmissionsInOrder(inputs);
    ObservingStaysTied(s, instance, inputs, others, Drawn(inputs));
  }
}
