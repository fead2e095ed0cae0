/** Leases keep concurrent relays apart exactly because a cycle's deadline comes before the end of its lease. */
module Leases {
  import opened Common
  import opened Events
  import opened Outbox
  import opened RelayService

  /** The deadline of one relay cycle in the source; the model leaves it open as `timeout`. */
  const RUN_TIMEOUT := 20 * SECOND

  /** A cycle that began at `now` and still has to mark the events in `held`. */
  datatype Cycle = Cycle(now: Time, held: set<string>)

  datatype State = State(clock: Time, rows: Rows, cycles: map<nat, Cycle>)

  /** Calls take effect before the deadline of their cycle; a mark that does not land still ends the event's turn. */
  datatype Step =
    | Tick(elapsed: nat)
    | Insert(event: Event)
    | Begin(relay: nat, now: Time, locked: set<string>, batch: seq<string>)
    | Finish(relay: nat, id: string, at: Time, lands: bool)
    | Postpone(relay: nat, id: string, next: Time, reason: string, lands: bool)
    | GiveUp(relay: nat)
    | Purge(cutoff: Time)

  predicate Live(s: State, timeout: int, relay: nat) {
    relay in s.cycles && s.clock < s.cycles[relay].now + timeout
  }

  predicate Holds(s: State, timeout: int, relay: nat, id: string) {
    Live(s, timeout, relay) && id in s.cycles[relay].held
  }

  predicate Enabled(s: State, timeout: int, step: Step) {
    match step
    case Begin(relay, now, locked, batch) =>
      && !Live(s, timeout, relay)
      && now <= s.clock < now + timeout
      && ValidClaim(s.rows, now, BATCH_SIZE, locked, batch)
    case Finish(relay, id, at, lands) => Holds(s, timeout, relay, id)
    case Postpone(relay, id, next, reason, lands) => Holds(s, timeout, relay, id)
    case _ => true
  }

  function Drop(s: State, relay: nat, id: string): map<nat, Cycle>
    requires relay in s.cycles
  {
    s.cycles[relay := s.cycles[relay].(held := s.cycles[relay].held - {id})]
  }

  function Next(s: State, timeout: int, step: Step): State {
    if !Enabled(s, timeout, step) then s
    else match step
      case Tick(elapsed) => s.(clock := s.clock + elapsed)
      case Insert(e) => s.(rows := Enqueued(s.rows, e, s.clock))
      case Begin(relay, now, locked, batch) =>
        s.(rows := Leased(s.rows, batch, now + LEASE), cycles := s.cycles[relay := Cycle(now, set id | id in batch)])
      case Finish(relay, id, at, lands) =>
        s.(rows := if lands then Published(s.rows, id, at) else s.rows, cycles := Drop(s, relay, id))
      case Postpone(relay, id, next, reason, lands) =>
        s.(rows := if lands then Failed(s.rows, id, next, reason) else s.rows, cycles := Drop(s, relay, id))
      case GiveUp(relay) => s.(cycles := s.cycles - {relay})
      case Purge(cutoff) => s.(rows := Purged(s.rows, cutoff))
  }

  function Run(s: State, timeout: int, steps: seq<Step>): State {
    if steps == [] then s else Next(Run(s, timeout, steps[..|steps| - 1]), timeout, steps[|steps| - 1])
  }

  function Init(clock: Time): State { State(clock, map[], map[]) }

  // ---------- the invariant ----------

  ghost predicate LeaseKept(s: State, timeout: int, relay: nat, id: string) {
    Holds(s, timeout, relay, id) ==> IsPending(s.rows, id) && s.rows[id].availableAt == s.cycles[relay].now + LEASE
  }

  ghost predicate LeasesKept(s: State, timeout: int) {
    forall relay, id :: Holds(s, timeout, relay, id) ==> LeaseKept(s, timeout, relay, id)
  }

  ghost predicate Exclusive(s: State, timeout: int) {
    forall a, b, id :: a != b && Holds(s, timeout, a, id) ==> !Holds(s, timeout, b, id)
  }

  /** A row under a live lease is not due, so no other claim can take it. */
  lemma LeasedRowsAreNotDue(s: State, timeout: int, relay: nat, id: string, now: Time)
    requires timeout <= LEASE && LeasesKept(s, timeout) && Holds(s, timeout, relay, id) && now <= s.clock
    ensures IsPending(s.rows, id) && !s.rows[id].Due(now)
  {
  }

  lemma NextKeepsExclusive(s: State, timeout: int, step: Step)
    requires timeout <= LEASE && LeasesKept(s, timeout) && Exclusive(s, timeout)
    ensures Exclusive(Next(s, timeout, step), timeout)
  {
    var t := Next(s, timeout, step);
    forall a, b, id | a != b && Holds(t, timeout, a, id) && Holds(t, timeout, b, id)
      ensures false
    {
      if step.Begin? && Enabled(s, timeout, step) && (step.relay == a || step.relay == b) {
        var other := if step.relay == a then b else a;
        assert Holds(s, timeout, other, id);
        assert Claimable(s.rows, step.now, step.locked, id);
        LeasedRowsAreNotDue(s, timeout, other, id, step.now);
      } else {
        assert Holds(s, timeout, a, id) && Holds(s, timeout, b, id);
      }
    }
  }

  lemma NextKeepsLease(s: State, timeout: int, step: Step, relay: nat, id: string)
    requires timeout <= LEASE && LeasesKept(s, timeout) && Exclusive(s, timeout)
    ensures LeaseKept(Next(s, timeout, step), timeout, relay, id)
  {
    var t := Next(s, timeout, step);
    if Holds(t, timeout, relay, id) {
      if step.Begin? && Enabled(s, timeout, step) && step.relay == relay {
        assert Claimable(s.rows, step.now, step.locked, id);
      } else {
        assert Holds(s, timeout, relay, id) && t.cycles[relay].now == s.cycles[relay].now;
        LeasedRowsAreNotDue(s, timeout, relay, id, s.clock);
        assert LeaseKept(s, timeout, relay, id);
        if step.Begin? && Enabled(s, timeout, step) {
          LeasedRowsAreNotDue(s, timeout, relay, id, step.now);
          assert !Claimable(s.rows, step.now, step.locked, id);
        }
      }
    }
  }

  lemma {:induction false} RunKeepsLeases(clock: Time, timeout: int, steps: seq<Step>)
    requires timeout <= LEASE
    ensures var s := Run(Init(clock), timeout, steps); LeasesKept(s, timeout) && Exclusive(s, timeout)
  {
    if steps != [] {
      var prefix, step := steps[..|steps| - 1], steps[|steps| - 1];
      RunKeepsLeases(clock, timeout, prefix);
      var s := Run(Init(clock), timeout, prefix);
      NextKeepsExclusive(s, timeout, step);
      forall relay, id | Holds(Next(s, timeout, step), timeout, relay, id)
        ensures LeaseKept(Next(s, timeout, step), timeout, relay, id)
      {
        NextKeepsLease(s, timeout, step, relay, id);
      }
    }
  }

  /** With the source's constants, no two live cycles of any number of relays ever hold the same event,
      and every mark a live cycle makes finds its row pending. */
  lemma NoTwoRelaysHoldAnEvent(clock: Time, steps: seq<Step>, a: nat, b: nat, id: string)
    requires Holds(Run(Init(clock), RUN_TIMEOUT, steps), RUN_TIMEOUT, a, id)
    ensures a != b ==> !Holds(Run(Init(clock), RUN_TIMEOUT, steps), RUN_TIMEOUT, b, id)
    ensures IsPending(Run(Init(clock), RUN_TIMEOUT, steps).rows, id)
  {
    RunKeepsLeases(clock, RUN_TIMEOUT, steps);
    assert LeaseKept(Run(Init(clock), RUN_TIMEOUT, steps), RUN_TIMEOUT, a, id);
  }

  /** Deadlines up to the length of the lease are safe, and any longer one is not. */
  lemma DeadlineMustNotExceedLease(timeout: int)
    ensures timeout <= 30 * SECOND <==> forall clock: Time, steps: seq<Step> :: Exclusive(Run(Init(clock), timeout, steps), timeout)
  {
    if timeout <= LEASE {
      forall clock: Time, steps: seq<Step>
        ensures Exclusive(Run(Init(clock), timeout, steps), timeout)
      {
        RunKeepsLeases(clock, timeout, steps);
      }
    } else {
      LongDeadlineSharesAnEvent(timeout);
    }
  }

  lemma RunSnoc(s: State, timeout: int, steps: seq<Step>, step: Step)
    ensures Run(s, timeout, steps + [step]) == Next(Run(s, timeout, steps), timeout, step)
  {
  }

  const SHARED := Event("x", 1, 1, SUBJECT_STARTED, 1, "r")

  /** One row, due, and nobody at work. */
  function Waiting(): State { State(0, map["x" := Row(SHARED, 0, 0, None, 0, None)], map[]) }

  /** The first relay claimed the row; its lease has just run out. */
  function Overdue(): State {
    State(LEASE, map["x" := Row(SHARED, 0, LEASE, None, 0, None)], map[0 := Cycle(0, {"x"})])
  }

  lemma FirstClaim(timeout: int)
    requires timeout > LEASE
    ensures Next(Next(Waiting(), timeout, Begin(0, 0, {}, ["x"])), timeout, Tick(LEASE)) == Overdue()
  {
    var s := Waiting();
    assert Claimable(s.rows, 0, {}, "x");
    assert Leased(s.rows, ["x"], LEASE) == map["x" := Row(SHARED, 0, LEASE, None, 0, None)];
    assert (set id | id in ["x"]) == {"x"};
  }

  lemma SecondClaim(timeout: int)
    requires timeout > LEASE
    ensures !Exclusive(Next(Overdue(), timeout, Begin(1, LEASE, {}, ["x"])), timeout)
  {
    var s := Overdue();
    assert Claimable(s.rows, LEASE, {}, "x");
    var t := Next(s, timeout, Begin(1, LEASE, {}, ["x"]));
    assert Holds(t, timeout, 0, "x") && Holds(t, timeout, 1, "x");
  }

  lemma LongDeadlineSharesAnEvent(timeout: int)
    requires timeout > LEASE
    ensures exists clock: Time, steps: seq<Step> :: !Exclusive(Run(Init(clock), timeout, steps), timeout)
  {
    assert Run(Init(0), timeout, []) == Init(0);
    RunSnoc(Init(0), timeout, [], Insert(SHARED));
    var steps := [] + [Insert(SHARED)];
    assert Run(Init(0), timeout, steps) == Waiting();
    RunSnoc(Init(0), timeout, steps, Begin(0, 0, {}, ["x"]));
    RunSnoc(Init(0), timeout, steps + [Begin(0, 0, {}, ["x"])], Tick(LEASE));
    FirstClaim(timeout);
    steps := steps + [Begin(0, 0, {}, ["x"])] + [Tick(LEASE)];
    RunSnoc(Init(0), timeout, steps, Begin(1, LEASE, {}, ["x"]));
    SecondClaim(timeout);
  }
}
