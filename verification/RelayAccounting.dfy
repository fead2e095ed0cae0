/** What one relay cycle leaves in the table, row by row, whatever other processes do between its calls. */
module RelayAccounting {
  import opened Common
  import opened Events
  import opened Outbox
  import opened Pipeline
  import opened PipelineInvariant
  import opened Deployment
  import opened RelayService
  import JetStream

  function LeasedRow(row: Row, now: Time): Row { row.(availableAt := now + 30 * SECOND) }

  function RelayedRow(row: Row, now: Time, fate: Fate): Row {
    if !fate.mark.Lands() then LeasedRow(row, now)
    else if fate.publish.Works? then LeasedRow(row, now).(publishedAt := Some(now), lastError := None)
    else row.(attempts := row.attempts + 1, availableAt := now + RetryDelay(row.attempts),
              lastError := Some(JetStream.PUBLISH_ERROR))
  }

  /** The row of `id` after the first `n` events of the batch: settled, still only leased, or not claimed at all. */
  function Expected(rows: Rows, now: Time, batch: seq<string>, fates: Fates, n: nat, id: string): Row
    requires n <= |batch| && id in rows
  {
    if id in batch[..n] then RelayedRow(rows[id], now, fates(id))
    else if id in batch then LeasedRow(rows[id], now)
    else rows[id]
  }

  /** Rows may only disappear by a purge, which takes published rows alone. */
  predicate RowIs(after: Rows, id: string, row: Row) {
    if id in after then after[id] == row else !row.Pending()
  }

  /** Of another process: it neither claims nor marks nor inserts these rows. */
  predicate Avoids(step: Step, kept: set<string>) {
    match step
    case Enqueue(e) => e.id !in kept
    case Claim(_, _, _, _, batch) => forall id :: id in batch ==> id !in kept
    case MarkPublished(id, _) => id !in kept
    case MarkFailed(id, _, _) => id !in kept
    case _ => true
  }

  lemma AvoidingStepChangesNoRow(s: State, step: Step, kept: set<string>, id: string, row: Row)
    requires Avoids(step, kept) && id in kept && RowIs(s.outbox, id, row)
    ensures RowIs(Next(s, step).outbox, id, row)
  {
  }

  lemma {:induction false} AvoidingStepsChangeNoRow(s: State, steps: seq<Step>, kept: set<string>, id: string, row: Row)
    requires id in kept && RowIs(s.outbox, id, row) && forall step :: step in steps ==> Avoids(step, kept)
    ensures RowIs(Run(s, steps).outbox, id, row)
  {
    if steps != [] {
      var prefix := steps[..|steps| - 1];
      AvoidingStepsChangeNoRow(s, prefix, kept, id, row);
      AvoidingStepChangesNoRow(Run(s, prefix), steps[|steps| - 1], kept, id, row);
    }
  }

  /** The mark of event number `n` of the batch settles its row and touches no other. */
  lemma MarkSettlesItsRow(rows: Rows, s: State, now: Time, batch: seq<string>, fates: Fates, n: nat, e: ClaimedEvent, id: string)
    requires n < |batch| && Distinct(batch) && id in rows && batch[n] in rows && rows[batch[n]].Pending()
    requires RowIs(s.outbox, id, Expected(rows, now, batch, fates, n, id))
    requires e.event.id == batch[n] && e.attempts == rows[batch[n]].attempts
    requires fates(batch[n]).publish.Works? ==> JetStream.Holds(s.stream, batch[n])
    ensures RowIs(Next(s, EventSteps(e, now, fates)[1]).outbox, id, Expected(rows, now, batch, fates, n + 1, id))
  {
    assert batch[n] !in batch[..n] && batch[n] in batch;
    assert batch[..n + 1] == batch[..n] + [batch[n]];
    var after := Next(s, EventSteps(e, now, fates)[1]).outbox;
    if id == batch[n] {
      assert after == s.outbox[id := RelayedRow(rows[id], now, fates(id))];
    } else {
      assert id in after <==> id in s.outbox;
      assert id in after ==> after[id] == s.outbox[id];
    }
  }

  lemma PublishedIsHeld(s: State, e: Event, remembered: bool)
    requires e in s.enqueued
    ensures JetStream.Holds(Next(s, Publish(e, remembered)).stream, e.id)
  {
    var t := Next(s, Publish(e, remembered));
    if t.stream != s.stream {
      assert t.stream[|s.stream|].msgId == e.id;
    }
  }

  lemma PublishKeepsRows(s: State, e: ClaimedEvent, now: Time, fates: Fates)
    requires e.event in s.enqueued
    ensures var t := Next(s, EventSteps(e, now, fates)[0]);
            && t.outbox == s.outbox && t.enqueued == s.enqueued
            && (fates(e.event.id).publish.Works? ==> JetStream.Holds(t.stream, e.event.id))
  {
    if fates(e.event.id).publish.Works? {
      PublishedIsHeld(s, e.event, fates(e.event.id).remembered);
    }
  }

  /** The publication and the mark of one event, among others, settle its row and no other. */
  lemma EventAccount(rows: Rows, s: State, first: seq<Step>, second: seq<Step>, now: Time, batch: seq<string>, fates: Fates,
                     n: nat, kept: set<string>, e: ClaimedEvent, id: string)
    requires n < |batch| && Distinct(batch) && id in kept && id in rows && batch[n] in rows && rows[batch[n]].Pending()
    requires RowIs(s.outbox, id, Expected(rows, now, batch, fates, n, id))
    requires e.event.id == batch[n] && e.attempts == rows[batch[n]].attempts && e.event in s.enqueued
    requires (forall step :: step in first ==> Avoids(step, kept)) && (forall step :: step in second ==> Avoids(step, kept))
    ensures var steps := EventSteps(e, now, fates);
            var t := Next(Run(Next(Run(s, first), steps[0]), second), steps[1]);
            RowIs(t.outbox, id, Expected(rows, now, batch, fates, n + 1, id))
  {
    var steps, row := EventSteps(e, now, fates), Expected(rows, now, batch, fates, n, id);
    var s1 := Run(s, first);
    var s2 := Next(s1, steps[0]);
    AvoidingStepsChangeNoRow(s, first, kept, id, row);
    RunKeepsFacts(s, first);
    PublishKeepsRows(s1, e, now, fates);
    AvoidingStepsChangeNoRow(s2, second, kept, id, row);
    RunKeepsFacts(s2, second);
    MarkSettlesItsRow(rows, Run(s2, second), now, batch, fates, n, e, id);
  }

  lemma {:induction false} BatchStepsAt(events: seq<ClaimedEvent>, now: Time, fates: Fates, i: nat)
    requires i < |events|
    ensures var steps := BatchSteps(events, now, fates);
            steps[2 * i] == EventSteps(events[i], now, fates)[0] && steps[2 * i + 1] == EventSteps(events[i], now, fates)[1]
  {
    if i < |events| - 1 {
      BatchStepsAt(events[..|events| - 1], now, fates, i);
    }
  }

  lemma {:induction false} ClaimedAt(rows: Rows, batch: seq<string>, i: nat)
    requires i < |batch| && forall id :: id in batch ==> id in rows
    ensures Claimed(rows, batch)[i] == EventOf(rows[batch[i]])
  {
    if i < |batch| - 1 {
      ClaimedAt(rows, batch[..|batch| - 1], i);
    }
  }

  function EventOf(row: Row): ClaimedEvent { ClaimedEvent(row.event, row.createdAt, row.attempts) }

  /** The calls of RelayOnce: `own` is a claim, then the publication and the mark of each event in turn. */
  ghost predicate RelayCalls(own: seq<Step>, claim: Step, events: seq<ClaimedEvent>, now: Time, fates: Fates) {
    && |own| == 1 + 2 * |events| && own[0] == claim
    && forall i :: 0 <= i < |events| ==> CallsOf(own, events, now, fates, i)
  }

  ghost predicate CallsOf(own: seq<Step>, events: seq<ClaimedEvent>, now: Time, fates: Fates, i: nat)
    requires i < |events| && |own| == 1 + 2 * |events|
  {
    own[1 + 2 * i] == EventSteps(events[i], now, fates)[0] && own[2 + 2 * i] == EventSteps(events[i], now, fates)[1]
  }

  lemma CallsAt(claim: Step, events: seq<ClaimedEvent>, now: Time, fates: Fates, i: nat)
    requires i < |events|
    ensures CallsOf([claim] + BatchSteps(events, now, fates), events, now, fates, i)
  {
    var steps := BatchSteps(events, now, fates);
    BatchStepsAt(events, now, fates, i);
    assert ([claim] + steps)[1 + 2 * i] == steps[2 * i] && ([claim] + steps)[2 + 2 * i] == steps[2 * i + 1];
  }

  lemma RelayOnceMakesThem(claim: Step, events: seq<ClaimedEvent>, now: Time, fates: Fates)
    ensures RelayCalls([claim] + BatchSteps(events, now, fates), claim, events, now, fates)
  {
    forall i | 0 <= i < |events|
      ensures CallsOf([claim] + BatchSteps(events, now, fates), events, now, fates, i)
    {
      CallsAt(claim, events, now, fates, i);
    }
  }

  ghost predicate Identified(s: State) {
    forall id :: id in s.outbox ==> s.outbox[id].event.id == id && s.outbox[id].event in s.enqueued
  }

  lemma RunsStayIdentified(s: State, steps: seq<Step>)
    requires Inv(s)
    ensures Identified(Run(s, steps))
  {
    RunKeepsInv(s, steps);
  }

  // ---------- a whole cycle ----------

  /** A cycle's calls, the states around them, and others that leave the rows in `kept` alone. */
  ghost predicate CycleTrail(before: seq<State>, after: seq<State>, own: seq<Step>, others: Interference, now: Time,
                             locked: set<string>, batch: seq<string>, claim: Fault, fates: Fates, kept: set<string>)
  {
    && IsTrail(before, after, own, others) && own != []
    && var rows := before[0].outbox;
    && Identified(before[0])
    && ValidClaim(rows, now, BATCH_SIZE, locked, batch) && claim.Lands()
    && (forall id :: id in batch ==> id in kept) && kept <= rows.Keys
    && RelayCalls(own, ClaimStep(now, locked, batch, claim), Claimed(rows, batch), now, fates)
    && (forall k: nat, step :: k > 0 && step in others(k) ==> Avoids(step, kept))
  }

  lemma ClaimAccount(s: State, now: Time, locked: set<string>, batch: seq<string>, claim: Fault, fates: Fates, id: string)
    requires ValidClaim(s.outbox, now, BATCH_SIZE, locked, batch) && claim.Lands() && id in s.outbox
    ensures var t := Next(s, ClaimStep(now, locked, batch, claim));
            RowIs(t.outbox, id, Expected(s.outbox, now, batch, fates, 0, id)) && t.enqueued == s.enqueued
  {
    assert Next(s, ClaimStep(now, locked, batch, claim)) == s.(outbox := Leased(s.outbox, batch, now + LEASE));
  }

  lemma FirstAccount(before: seq<State>, after: seq<State>, own: seq<Step>, others: Interference, now: Time,
                     locked: set<string>, batch: seq<string>, claim: Fault, fates: Fates, kept: set<string>, id: string)
    requires CycleTrail(before, after, own, others, now, locked, batch, claim, fates, kept) && id in kept
    ensures |own| == 1 + 2 * |batch| && after[1].enqueued == before[0].enqueued
    ensures RowIs(after[1].outbox, id, Expected(before[0].outbox, now, batch, fates, 0, id))
  {
    assert Leap(before, after, own, others, 0);
    ClaimAccount(before[0], now, locked, batch, claim, fates, id);
  }

  /** What CycleTrail says of the i-th event. */
  lemma CycleEvent(before: seq<State>, after: seq<State>, own: seq<Step>, others: Interference, now: Time,
                   locked: set<string>, batch: seq<string>, claim: Fault, fates: Fates, kept: set<string>, i: nat)
    requires CycleTrail(before, after, own, others, now, locked, batch, claim, fates, kept) && i < |batch|
    ensures |own| == 1 + 2 * |batch| && Distinct(batch)
    ensures var rows, e := before[0].outbox, Claimed(before[0].outbox, batch)[i];
            && batch[i] in kept && kept <= rows.Keys && rows[batch[i]].Pending()
            && e == EventOf(rows[batch[i]]) && e.event.id == batch[i] && e.event in before[0].enqueued
            && own[1 + 2 * i] == EventSteps(e, now, fates)[0] && own[2 + 2 * i] == EventSteps(e, now, fates)[1]
    ensures forall step :: step in others(1 + 2 * i) ==> Avoids(step, kept)
    ensures forall step :: step in others(2 + 2 * i) ==> Avoids(step, kept)
  {
    assert batch[i] in batch && Claimable(before[0].outbox, now, locked, batch[i]);
    ClaimedAt(before[0].outbox, batch, i);
    assert CallsOf(own, Claimed(before[0].outbox, batch), now, fates, i);
  }

  lemma OneMoreEvent(rows: Rows, before: seq<State>, after: seq<State>, own: seq<Step>, others: Interference, now: Time,
                     batch: seq<string>, fates: Fates, kept: set<string>, i: nat, e: ClaimedEvent, id: string)
    requires IsTrail(before, after, own, others) && 2 + 2 * i < |own|
    requires own[1 + 2 * i] == EventSteps(e, now, fates)[0] && own[2 + 2 * i] == EventSteps(e, now, fates)[1]
    requires i < |batch| && Distinct(batch) && id in kept && id in rows && batch[i] in rows && rows[batch[i]].Pending()
    requires RowIs(after[1 + 2 * i].outbox, id, Expected(rows, now, batch, fates, i, id))
    requires e.event.id == batch[i] && e.attempts == rows[batch[i]].attempts && e.event in after[1 + 2 * i].enqueued
    requires forall step :: step in others(1 + 2 * i) ==> Avoids(step, kept)
    requires forall step :: step in others(2 + 2 * i) ==> Avoids(step, kept)
    ensures RowIs(after[3 + 2 * i].outbox, id, Expected(rows, now, batch, fates, i + 1, id))
  {
    var k := 1 + 2 * i;
    assert Leap(before, after, own, others, k) && Leap(before, after, own, others, k + 1);
    EventAccount(rows, after[k], others(k), others(k + 1), now, batch, fates, i, kept, e, id);
  }

  lemma CallKeepsEnqueued(s: State, others: seq<Step>, step: Step)
    ensures s.enqueued <= Next(Run(s, others), step).enqueued
  {
    RunGrows(s, others);
    NextGrows(Run(s, others), step);
  }

  lemma {:induction false} TrailKeepsEnqueued(before: seq<State>, after: seq<State>, own: seq<Step>, others: Interference,
                                              j: nat, k: nat)
    requires IsTrail(before, after, own, others) && j <= k <= |own|
    ensures after[j].enqueued <= after[k].enqueued
  {
    if j < k {
      TrailKeepsEnqueued(before, after, own, others, j, k - 1);
      assert Leap(before, after, own, others, k - 1);
      CallKeepsEnqueued(after[k - 1], others(k - 1), own[k - 1]);
    }
  }

  lemma NextAccount(before: seq<State>, after: seq<State>, own: seq<Step>, others: Interference, now: Time,
                    locked: set<string>, batch: seq<string>, claim: Fault, fates: Fates, kept: set<string>, i: nat, id: string)
    requires CycleTrail(before, after, own, others, now, locked, batch, claim, fates, kept) && i < |batch| && id in kept
    requires |own| == 1 + 2 * |batch| && RowIs(after[1 + 2 * i].outbox, id, Expected(before[0].outbox, now, batch, fates, i, id))
    requires before[0].enqueued <= after[1 + 2 * i].enqueued
    ensures RowIs(after[3 + 2 * i].outbox, id, Expected(before[0].outbox, now, batch, fates, i + 1, id))
  {
    CycleEvent(before, after, own, others, now, locked, batch, claim, fates, kept, i);
    var rows := before[0].outbox;
    OneMoreEvent(rows, before, after, own, others, now, batch, fates, kept, i, EventOf(rows[batch[i]]), id);
  }

  /** Along the trail, `before[0]` being what the claim finds. */
  lemma {:induction false} AccountAfter(before: seq<State>, after: seq<State>, own: seq<Step>, others: Interference, now: Time,
                                        locked: set<string>, batch: seq<string>, claim: Fault, fates: Fates,
                                        kept: set<string>, n: nat, id: string)
    requires CycleTrail(before, after, own, others, now, locked, batch, claim, fates, kept) && n <= |batch| && id in kept
    ensures |own| == 1 + 2 * |batch|
    ensures RowIs(after[1 + 2 * n].outbox, id, Expected(before[0].outbox, now, batch, fates, n, id))
  {
    FirstAccount(before, after, own, others, now, locked, batch, claim, fates, kept, id);
    if n > 0 {
      AccountAfter(before, after, own, others, now, locked, batch, claim, fates, kept, n - 1, id);
      TrailKeepsEnqueued(before, after, own, others, 1, 2 * n - 1);
      NextAccount(before, after, own, others, now, locked, batch, claim, fates, kept, n - 1, id);
    }
  }

  lemma TrailAccount(before: seq<State>, after: seq<State>, own: seq<Step>, others: Interference, now: Time,
                     locked: set<string>, batch: seq<string>, claim: Fault, fates: Fates, kept: set<string>, id: string)
    requires CycleTrail(before, after, own, others, now, locked, batch, claim, fates, kept) && id in kept
    ensures RowIs(after[|own|].outbox, id, Expected(before[0].outbox, now, batch, fates, |batch|, id))
  {
    AccountAfter(before, after, own, others, now, locked, batch, claim, fates, kept, |batch|, id);
  }

  lemma MakesCycleTrail(before: seq<State>, after: seq<State>, own: seq<Step>, others: Interference, now: Time,
                        locked: set<string>, batch: seq<string>, claim: Fault, fates: Fates, kept: set<string>)
    requires IsTrail(before, after, own, others) && own != [] && Identified(before[0])
    requires claim.Works? && ValidClaim(before[0].outbox, now, BATCH_SIZE, locked, batch)
    requires own == [ClaimStep(now, locked, batch, claim)] + BatchSteps(Claimed(before[0].outbox, batch), now, fates)
    requires (forall b :: b in batch ==> b in kept) && kept <= before[0].outbox.Keys
    requires forall k: nat, step :: k > 0 && step in others(k) ==> Avoids(step, kept)
    ensures CycleTrail(before, after, own, others, now, locked, batch, claim, fates, kept)
  {
    RelayOnceMakesThem(ClaimStep(now, locked, batch, claim), Claimed(before[0].outbox, batch), now, fates);
  }

  lemma FirstState(s: State, before: seq<State>, after: seq<State>, own: seq<Step>, others: Interference)
    requires Inv(s) && IsTrail(before, after, own, others) && own != [] && after[0] == s
    ensures before[0] == Run(s, others(0)) && Identified(before[0])
  {
    assert Leap(before, after, own, others, 0);
    RunsStayIdentified(s, others(0));
  }

  /** Among any processes that leave the rows in `kept` alone, every claimed row ends published at the cycle's time,
      postponed by the backoff, or merely leased when its mark did not land, and every other row of `kept` ends as it was,
      save that published rows may be purged. With leases, `kept` may be the batch; without other relays, all rows.
      `found` is what the claim finds, and `own` are the calls of RelayOnce. */
  lemma CycleAccount(s: State, found: State, own: seq<Step>, now: Time, locked: set<string>, batch: seq<string>,
                     claim: Fault, fates: Fates, others: Interference, kept: set<string>, id: string)
    requires Inv(s) && found == Run(s, others(0))
    requires claim.Works? && ValidClaim(found.outbox, now, BATCH_SIZE, locked, batch)
    requires own == [ClaimStep(now, locked, batch, claim)] + BatchSteps(Claimed(found.outbox, batch), now, fates)
    requires (forall b :: b in batch ==> b in kept) && kept <= found.outbox.Keys && id in kept
    requires forall k: nat, step :: k > 0 && step in others(k) ==> Avoids(step, kept)
    ensures RowIs(Run(s, Weave(own, others)).outbox, id, Expected(found.outbox, now, batch, fates, |batch|, id))
  {
    var before, after := Trail(s, own, others);
    FirstState(s, before, after, own, others);
    MakesCycleTrail(before, after, own, others, now, locked, batch, claim, fates, kept);
    TrailAccount(before, after, own, others, now, locked, batch, claim, fates, kept, id);
  }
}
