/** No pending row waits for ever behind newer ones: its rank falls by a full batch every cycle until it is claimed. */
module Starvation {
  import opened Common
  import opened Events
  import opened Outbox
  import opened Pipeline
  import opened PipelineInvariant
  import opened Deployment
  import opened RelayService

  /** From one claim of a lone relay to its next: `batch` is claimed at `now`; claimed rows become published or move past
      `now`, rows inserted meanwhile become available after `now`, and pending rows passed over stay as they are. */
  ghost predicate Cycle(rows: Rows, now: Time, batch: seq<string>, after: Rows) {
    && ValidClaim(rows, now, BATCH_SIZE, {}, batch)
    && (forall id :: id in rows && PassedOver(rows, batch, id) ==> id in after && after[id] == rows[id])
    && (forall id :: id in after && !PassedOver(rows, batch, id) ==> !after[id].Pending() || now < after[id].availableAt)
  }

  predicate PassedOver(rows: Rows, batch: seq<string>, id: string) {
    IsPending(rows, id) && id !in batch
  }

  // ---------- such is a relay among processes that neither claim nor mark ----------

  lemma ClaimBeginsCycle(rows: Rows, now: Time, batch: seq<string>)
    requires ValidClaim(rows, now, BATCH_SIZE, {}, batch)
    ensures Cycle(rows, now, batch, Leased(rows, batch, now + LEASE))
  {
  }

  lemma EnqueueKeepsCycle(rows: Rows, now: Time, batch: seq<string>, after: Rows, e: Event, at: Time)
    requires Cycle(rows, now, batch, after) && now < at
    ensures Cycle(rows, now, batch, Enqueued(after, e, at))
  {
  }

  lemma PurgeKeepsCycle(rows: Rows, now: Time, batch: seq<string>, after: Rows, cutoff: Time)
    requires Cycle(rows, now, batch, after)
    ensures Cycle(rows, now, batch, Purged(after, cutoff))
  {
  }

  /** The relay's own marks are of claimed rows and postpone them past the cycle; nobody claims. */
  predicate WithinCycle(step: Step, now: Time, batch: seq<string>) {
    match step
    case Claim(_, _, _, _, _) => false
    case MarkPublished(id, _) => id in batch
    case MarkFailed(id, next, _) => id in batch && now < next
    case _ => true
  }

  /** Of another process: no claim, no mark. */
  predicate Quiet(step: Step) { !step.Claim? && !step.MarkPublished? && !step.MarkFailed? }

  ghost predicate AllQuiet(others: Interference) {
    forall k: nat, step :: step in others(k) ==> Quiet(step)
  }

  lemma StepKeepsCycle(rows: Rows, now: Time, batch: seq<string>, s: State, step: Step)
    requires Cycle(rows, now, batch, s.outbox) && now < s.clock && WithinCycle(step, now, batch)
    ensures Cycle(rows, now, batch, Next(s, step).outbox) && now < Next(s, step).clock
  {
    if Enabled(s, step) {
      match step
      case Enqueue(e) => EnqueueKeepsCycle(rows, now, batch, s.outbox, e, s.clock);
      case PurgeOutbox(cutoff) => PurgeKeepsCycle(rows, now, batch, s.outbox, cutoff);
      case _ =>
    }
  }

  lemma {:induction false} RunKeepsCycle(rows: Rows, now: Time, batch: seq<string>, s: State, steps: seq<Step>)
    requires Cycle(rows, now, batch, s.outbox) && now < s.clock
    requires forall step :: step in steps ==> WithinCycle(step, now, batch)
    ensures Cycle(rows, now, batch, Run(s, steps).outbox) && now < Run(s, steps).clock
  {
    if steps != [] {
      var prefix := steps[..|steps| - 1];
      RunKeepsCycle(rows, now, batch, s, prefix);
      StepKeepsCycle(rows, now, batch, Run(s, prefix), steps[|steps| - 1]);
    }
  }

  lemma OneMoreCallCycles(rows: Rows, now: Time, batch: seq<string>, s: State, others: seq<Step>, step: Step)
    requires Cycle(rows, now, batch, s.outbox) && now < s.clock
    requires WithinCycle(step, now, batch) && forall other :: other in others ==> Quiet(other)
    ensures var t := Next(Run(s, others), step); Cycle(rows, now, batch, t.outbox) && now < t.clock
  {
    RunKeepsCycle(rows, now, batch, s, others);
    StepKeepsCycle(rows, now, batch, Run(s, others), step);
  }

  lemma ClaimCycles(s: State, now: Time, batch: seq<string>)
    requires now < s.clock && ValidClaim(s.outbox, now, BATCH_SIZE, {}, batch)
    ensures var t := Next(s, ClaimStep(now, {}, batch, Works)); Cycle(s.outbox, now, batch, t.outbox) && now < t.clock
  {
    assert Next(s, ClaimStep(now, {}, batch, Works)) == s.(outbox := Leased(s.outbox, batch, now + LEASE));
    ClaimBeginsCycle(s.outbox, now, batch);
  }

  /** A claim, then calls within the cycle, other processes acting before each: a cycle after every one of them. */
  lemma {:induction false} InterleavedCallsCycle(rows: Rows, now: Time, batch: seq<string>, before: seq<State>,
                                                 after: seq<State>, own: seq<Step>, others: Interference, k: nat)
    requires IsTrail(before, after, own, others) && 0 < k <= |own|
    requires own[0] == ClaimStep(now, {}, batch, Works) && forall i :: 0 < i < |own| ==> WithinCycle(own[i], now, batch)
    requires AllQuiet(others)
    requires before[0].outbox == rows && now < before[0].clock
    requires ValidClaim(rows, now, BATCH_SIZE, {}, batch)
    ensures Cycle(rows, now, batch, after[k].outbox) && now < after[k].clock
  {
    assert Leap(before, after, own, others, k - 1);
    if k == 1 {
      ClaimCycles(before[0], now, batch);
    } else {
      InterleavedCallsCycle(rows, now, batch, before, after, own, others, k - 1);
      OneMoreCallCycles(rows, now, batch, after[k - 1], others(k - 1), own[k - 1]);
    }
  }

  /** One turn of the relay: what RelayOnce is given, and how many calls it lives to make after its claim. */
  datatype Turn = Turn(now: Time, batch: seq<string>, claim: Fault, fates: Fates, others: Interference, calls: nat)

  /** The calls that RelayOnce makes in this turn after its claim. */
  function CallsAfterClaim(rows: Rows, turn: Turn): seq<Step>
    requires forall id :: id in turn.batch ==> id in rows
  {
    var all := if turn.claim.Works? then BatchSteps(Claimed(rows, turn.batch), turn.now, turn.fates) else [];
    if turn.calls <= |all| then all[..turn.calls] else all
  }

  function Calls(s: State, turn: Turn): seq<Step>
    requires forall id :: id in turn.batch ==> id in Run(s, turn.others(0)).outbox
  {
    [ClaimStep(turn.now, {}, turn.batch, turn.claim)] + CallsAfterClaim(Run(s, turn.others(0)).outbox, turn)
  }

  /** The turn's claim lands, after its clock was read, with no other relay claiming or marking. */
  ghost predicate LoneTurn(s: State, turn: Turn) {
    && turn.claim.Lands()
    && AllQuiet(turn.others)
    && turn.now < Run(s, turn.others(0)).clock
    && ValidClaim(Run(s, turn.others(0)).outbox, turn.now, BATCH_SIZE, {}, turn.batch)
  }

  function AfterTurn(s: State, turn: Turn): State
    requires forall id :: id in turn.batch ==> id in Run(s, turn.others(0)).outbox
  {
    Run(s, Weave(Calls(s, turn), turn.others))
  }

  lemma {:induction false} BatchStepsAreWithin(events: seq<ClaimedEvent>, now: Time, fates: Fates, batch: seq<string>)
    requires forall e :: e in events ==> e.event.id in batch
    ensures forall step :: step in BatchSteps(events, now, fates) ==> WithinCycle(step, now, batch)
  {
    if events != [] {
      var n := |events| - 1;
      BatchStepsAreWithin(events[..n], now, fates, batch);
      Power2Grows(0, events[n].attempts);
      assert events[n] in events;
    }
  }

  lemma ClaimedIdsAreTheBatch(s: State, batch: seq<string>)
    requires RowsIdentified(s) && forall id :: id in batch ==> id in s.outbox
    ensures forall e :: e in Claimed(s.outbox, batch) ==> e.event.id in batch
  {
    var events := Claimed(s.outbox, batch);
    forall i | 0 <= i < |events|
      ensures events[i].event.id in batch
    {
      assert batch[i] in batch;
    }
  }

  lemma RowsStayIdentified(s: State, steps: seq<Step>)
    requires Inv(s)
    ensures RowsIdentified(Run(s, steps))
  {
    RunKeepsInv(s, steps);
  }

  lemma CallsAreWithin(s: State, turn: Turn)
    requires RowsIdentified(s) && forall id :: id in turn.batch ==> id in s.outbox
    ensures forall step :: step in CallsAfterClaim(s.outbox, turn) ==> WithinCycle(step, turn.now, turn.batch)
  {
    var events := Claimed(s.outbox, turn.batch);
    ClaimedIdsAreTheBatch(s, turn.batch);
    BatchStepsAreWithin(events, turn.now, turn.fates, turn.batch);
    forall step | step in CallsAfterClaim(s.outbox, turn)
      ensures step in BatchSteps(events, turn.now, turn.fates)
    {
    }
  }

  /** Whatever other processes enqueue, publish, consume or purge between its calls, and wherever it breaks off,
      a turn of RelayOnce is a cycle. */
  lemma RelayTurnsCycle(s: State, turn: Turn)
    requires Inv(s) && LoneTurn(s, turn)
    ensures Cycle(Run(s, turn.others(0)).outbox, turn.now, turn.batch, AfterTurn(s, turn).outbox)
    ensures turn.now < AfterTurn(s, turn).clock
  {
    RowsStayIdentified(s, turn.others(0));
    CallsAreWithin(Run(s, turn.others(0)), turn);
    var own := Calls(s, turn);
    var before, after := Trail(s, own, turn.others);
    assert Leap(before, after, own, turn.others, 0);
    forall i | 0 < i < |own|
      ensures WithinCycle(own[i], turn.now, turn.batch)
    {
      assert own[i] == CallsAfterClaim(Run(s, turn.others(0)).outbox, turn)[i - 1];
    }
    InterleavedCallsCycle(Run(s, turn.others(0)).outbox, turn.now, turn.batch, before, after, own, turn.others, |own|);
  }

  // ---------- the measure ----------

  /** The pending rows, other than `id`, that the claim query does not put behind it. */
  ghost function Ahead(rows: Rows, id: string): set<string>
    requires id in rows
  {
    set other | other in rows && other != id && rows[other].Pending() && rows[other].NotLater(rows[id])
  }

  /** Passing a due row over costs a full batch of rows ahead of it, and nothing ever joins them. */
  lemma RankFalls(rows: Rows, now: Time, batch: seq<string>, after: Rows, id: string)
    requires Cycle(rows, now, batch, after)
    requires id in rows && rows[id].Due(now) && id !in batch
    ensures id in after && after[id] == rows[id]
    ensures |Ahead(after, id)| + BATCH_SIZE <= |Ahead(rows, id)|
  {
    assert Claimable(rows, now, {}, id);
    var claimed := set b | b in batch;
    DistinctSize(batch);
    assert claimed <= Ahead(rows, id) by {
      forall b | b in claimed
        ensures b in Ahead(rows, id)
      {
        assert Claimable(rows, now, {}, b);
      }
    }
    assert Ahead(after, id) <= Ahead(rows, id) - claimed;
    SubsetSize(Ahead(after, id), Ahead(rows, id) - claimed);
    assert |Ahead(rows, id) - claimed| == |Ahead(rows, id)| - |claimed|;
  }

  lemma {:induction false} DistinctSize(ids: seq<string>)
    requires Distinct(ids)
    ensures |set id | id in ids| == |ids|
  {
    if ids != [] {
      var rest, last := ids[..|ids| - 1], ids[|ids| - 1];
      DistinctSize(rest);
      assert (set id | id in ids) == (set id | id in rest) + {last};
      assert last !in rest;
    }
  }

  lemma SubsetSize(a: set<string>, b: set<string>)
    requires a <= b
    ensures |a| <= |b|
  {
    assert b == a + (b - a);
  }

  /** A lone relay takes these turns, at later and later times. */
  ghost predicate LoneTurns(s: State, turns: seq<Turn>)
    decreases |turns|
  {
    turns == [] ||
    (LoneTurn(s, turns[0])
     && (|turns| > 1 ==> turns[0].now < turns[1].now)
     && LoneTurns(AfterTurn(s, turns[0]), turns[1..]))
  }

  lemma NextTurn(s: State, turn: Turn, next: Turn, id: string)
    requires Inv(s) && LoneTurn(s, turn) && AllQuiet(next.others) && turn.now < next.now
    requires var rows := Run(s, turn.others(0)).outbox; id in rows && rows[id].Due(turn.now) && id !in turn.batch
    ensures var rows := Run(s, turn.others(0)).outbox;
            var after := Run(AfterTurn(s, turn), next.others(0)).outbox;
            id in after && after[id].Due(next.now) && |Ahead(after, id)| + BATCH_SIZE <= |Ahead(rows, id)|
  {
    var rows, t := Run(s, turn.others(0)).outbox, AfterTurn(s, turn);
    RelayTurnsCycle(s, turn);
    forall step | step in next.others(0)
      ensures WithinCycle(step, turn.now, turn.batch)
    {
      assert Quiet(step);
    }
    RunKeepsCycle(rows, turn.now, turn.batch, t, next.others(0));
    RankFalls(rows, turn.now, turn.batch, Run(t, next.others(0)).outbox, id);
  }

  lemma RanksStayAboveABatch(s: State, turn: Turn, id: string)
    requires Inv(s) && LoneTurn(s, turn)
    requires var rows := Run(s, turn.others(0)).outbox; id in rows && rows[id].Due(turn.now) && id !in turn.batch
    ensures |Ahead(Run(s, turn.others(0)).outbox, id)| >= BATCH_SIZE
  {
    RelayTurnsCycle(s, turn);
    RankFalls(Run(s, turn.others(0)).outbox, turn.now, turn.batch, AfterTurn(s, turn).outbox, id);
  }

  lemma TurnKeepsInv(s: State, turn: Turn)
    requires Inv(s) && LoneTurn(s, turn)
    ensures Inv(AfterTurn(s, turn))
  {
    RunKeepsInv(s, Weave(Calls(s, turn), turn.others));
  }

  /** A row that is due at the first turn, with r rows ahead of it, is claimed within r/50 further turns,
      whatever is enqueued, retried, leased or purged before, between and after the relay's calls. */
  lemma {:induction false} ClaimedInTime(s: State, turns: seq<Turn>, id: string) returns (k: nat)
    requires Inv(s) && turns != [] && LoneTurns(s, turns)
    requires var rows := Run(s, turns[0].others(0)).outbox;
             id in rows && rows[id].Due(turns[0].now) && |turns| > |Ahead(rows, id)| / BATCH_SIZE
    ensures k <= |Ahead(Run(s, turns[0].others(0)).outbox, id)| / BATCH_SIZE
    ensures k < |turns| && id in turns[k].batch
    decreases |turns|
  {
    k := 0;
    if id !in turns[0].batch {
      RanksStayAboveABatch(s, turns[0], id);
      NextTurn(s, turns[0], turns[1], id);
      TurnKeepsInv(s, turns[0]);
      var later := ClaimedInTime(AfterTurn(s, turns[0]), turns[1..], id);
      k := later + 1;
    }
  }
}
