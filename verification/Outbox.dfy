/** The `outbox_events` table and the repository over it. */
module Outbox {
  import opened Common
  import opened Events

  datatype Row = Row(event: Event, createdAt: Time, availableAt: Time,
                     publishedAt: Option<Time>, attempts: nat, lastError: Option<string>)
  {
    predicate Pending() { publishedAt.None? }

    predicate Due(now: Time) { Pending() && availableAt <= now }

    /** The order of the claim query: (available_at, created_at). */
    predicate NotLater(other: Row) {
      availableAt < other.availableAt || (availableAt == other.availableAt && createdAt <= other.createdAt)
    }
  }

  type Rows = map<string, Row>

  /** The bytes handed over with an event, before they are stored. */
  datatype Payload = Missing | Malformed | Json

  datatype ClaimedEvent = ClaimedEvent(event: Event, createdAt: Time, attempts: nat)

  // ---------- what each statement does to the table ----------

  function Enqueued(rows: Rows, e: Event, now: Time): Rows {
    if e.id in rows then rows else rows[e.id := Row(e, now, now, None, 0, None)]
  }

  function Leased(rows: Rows, ids: seq<string>, until: Time): Rows {
    map id | id in rows :: if id in ids then rows[id].(availableAt := until) else rows[id]
  }

  predicate IsPending(rows: Rows, id: string) {
    id in rows && rows[id].Pending()
  }

  function Published(rows: Rows, id: string, at: Time): Rows {
    if IsPending(rows, id) then rows[id := rows[id].(publishedAt := Some(at), lastError := None)] else rows
  }

  function Failed(rows: Rows, id: string, next: Time, reason: string): Rows {
    if IsPending(rows, id)
    then rows[id := rows[id].(attempts := rows[id].attempts + 1, availableAt := next, lastError := Some(reason))]
    else rows
  }

  predicate Expired(row: Row, cutoff: Time) {
    row.publishedAt.Some? && row.publishedAt.value < cutoff
  }

  function Purged(rows: Rows, cutoff: Time): Rows {
    map id | id in rows && !Expired(rows[id], cutoff) :: rows[id]
  }

  // ---------- which rows a claim may take ----------

  predicate Distinct(ids: seq<string>) {
    forall i, j :: 0 <= i < j < |ids| ==> ids[i] != ids[j]
  }

  predicate Claimable(rows: Rows, now: Time, locked: set<string>, id: string) {
    id in rows && rows[id].Due(now) && id !in locked
  }

  /** `batch` may be the answer of the claim query: due rows that no other transaction has locked, at most `limit`,
      and no row is passed over for a later one. Ties and the order of the answer are the database's choice. */
  predicate ValidClaim(rows: Rows, now: Time, limit: nat, locked: set<string>, batch: seq<string>) {
    && Distinct(batch)
    && |batch| <= limit
    && (forall id :: id in batch ==> Claimable(rows, now, locked, id))
    && (forall id :: id in rows && Claimable(rows, now, locked, id) && id !in batch ==>
          |batch| == limit && forall b :: b in batch ==> rows[b].NotLater(rows[id]))
  }

  /** The row could have been claimed and was not. */
  predicate PassedOver(rows: Rows, now: Time, locked: set<string>, batch: seq<string>, id: string) {
    && id in rows && rows[id].publishedAt.None? && rows[id].availableAt <= now
    && id !in locked && id !in batch
  }

  /** Every table has an answer, so nothing said about claims is vacuous. */
  lemma {:induction false} ClaimExists(rows: Rows, now: Time, limit: nat, locked: set<string>)
    returns (batch: seq<string>)
    ensures ValidClaim(rows, now, limit, locked, batch)
  {
    batch := [];
    if limit > 0 {
      var shorter := ClaimExists(rows, now, limit - 1, locked);
      var rest := set id | id in rows && Claimable(rows, now, locked, id) && id !in shorter;
      batch := shorter;
      if rest != {} {
        var least := Earliest(rows, rest);
        batch := shorter + [least];
      }
      forall id | id in rows && Claimable(rows, now, locked, id) && id !in batch
        ensures |batch| == limit && forall b :: b in batch ==> rows[b].NotLater(rows[id])
      {
        assert id in rest;
      }
    }
  }

  lemma {:induction false} Earliest(rows: Rows, ids: set<string>) returns (least: string)
    requires ids != {} && ids <= rows.Keys
    ensures least in ids && forall id :: id in ids ==> rows[least].NotLater(rows[id])
    decreases |ids|
  {
    least :| least in ids;
    var rest := ids - {least};
    if rest != {} {
      var other := Earliest(rows, rest);
      if rows[other].NotLater(rows[least]) {
        least := other;
      }
    }
  }

  function Claimed(rows: Rows, batch: seq<string>): (events: seq<ClaimedEvent>)
    requires forall id :: id in batch ==> id in rows
    ensures |events| == |batch|
    ensures forall i :: 0 <= i < |batch| ==> events[i] == ClaimedEvent(rows[batch[i]].event, rows[batch[i]].createdAt,
                                                                       rows[batch[i]].attempts)
  {
    if batch == [] then []
    else
      var row := rows[batch[|batch| - 1]];
      Claimed(rows, batch[..|batch| - 1]) + [ClaimedEvent(row.event, row.createdAt, row.attempts)]
  }

  /** The statement touches no row but that of `id`. */
  predicate OthersKept(before: Rows, after: Rows, id: string) {
    && before.Keys - {id} == after.Keys - {id}
    && forall other :: other in before && other != id ==> other in after && after[other] == before[other]
  }

  /** The rows of `batch` are put off to `until`, and nothing else changes. */
  predicate PutOff(before: Rows, after: Rows, batch: seq<string>, until: Time) {
    && after.Keys == before.Keys
    && forall id :: id in before ==> after[id] == before[id].(availableAt := if id in batch then until else before[id].availableAt)
  }

  /** Exactly the rows published before the cutoff are gone. */
  predicate PublishedGone(before: Rows, after: Rows, cutoff: Time) {
    && (forall id :: id in after ==> id in before && after[id] == before[id])
    && (forall id :: id in before ==>
          (id !in after <==> before[id].publishedAt.Some? && before[id].publishedAt.value < cutoff))
  }

  class Repository {
    var rows: Rows

    constructor ()
      ensures rows == map[]
    {
      rows := map[];
    }

    /** `now` is the database's own clock, which fills the defaults of both time columns. */
    method Enqueue(e: Event, payload: Payload, now: Time, fault: Fault) returns (inserted: Result<bool>)
      modifies this
      ensures e.id == "" || e.subject == "" || !payload.Json? ==> inserted.Error? && rows == old(rows)
      ensures e.id != "" && e.subject != "" && payload.Json? ==>
                && rows == (if fault.Lands() then Enqueued(old(rows), e, now) else old(rows))
                && (inserted.Ok? <==> fault.Works?)
                && (inserted.Ok? ==> (inserted.value <==> e.id !in old(rows)))
                && (e.id in old(rows) ==> rows == old(rows))
                && (e.id !in old(rows) && fault.Lands() ==>
                      OthersKept(old(rows), rows, e.id) && e.id in rows && rows[e.id] == Row(e, now, now, None, 0, None))
    {
      if e.id == "" {
        return Error("outbox event ID is required");
      }
      if e.subject == "" {
        return Error("outbox subject is required");
      }
      if payload.Missing? {
        return Error("outbox payload is required");
      }
      if payload.Malformed? {
        return Error("outbox payload must be valid JSON");
      }
      var affected := e.id !in rows;
      if fault.Lands() {
        rows := Enqueued(rows, e, now);
      }
      if !fault.Works? {
        return Error("enqueue outbox event");
      }
      return Ok(affected);
    }

    /** `batch` is the database's answer. The rows are leased even when the answer is lost on the way back. */
    method ClaimPending(now: Time, leaseUntil: Time, limit: int, ghost locked: set<string>,
                        batch: seq<string>, fault: Fault) returns (events: Result<seq<ClaimedEvent>>)
      requires limit > 0 ==> ValidClaim(rows, now, limit, locked, batch)
      modifies this
      ensures now == ZERO_TIME || leaseUntil == ZERO_TIME || leaseUntil <= now || limit <= 0 ==>
                events.Error? && rows == old(rows)
      ensures now != ZERO_TIME && leaseUntil != ZERO_TIME && leaseUntil > now && limit > 0 ==>
                && rows == (if fault.Lands() then Leased(old(rows), batch, leaseUntil) else old(rows))
                && (events.Ok? <==> fault.Works?)
                && (events.Ok? ==> events.value == Claimed(old(rows), batch))
                && (fault.Lands() ==> PutOff(old(rows), rows, batch, leaseUntil))
                && (forall id :: id in batch ==>
                      id in old(rows) && old(rows)[id].publishedAt.None? && old(rows)[id].availableAt <= now && id !in locked)
                && (forall b, id :: b in batch && PassedOver(old(rows), now, locked, batch, id) ==>
                      || old(rows)[b].availableAt < old(rows)[id].availableAt
                      || (old(rows)[b].availableAt == old(rows)[id].availableAt && old(rows)[b].createdAt <= old(rows)[id].createdAt))
    {
      if now == ZERO_TIME {
        return Error("outbox claim time is required");
      }
      if leaseUntil == ZERO_TIME {
        return Error("outbox lease time is required");
      }
      if leaseUntil <= now {
        return Error("outbox lease must end after claim time");
      }
      if limit <= 0 {
        return Error("outbox claim limit must be positive");
      }
      var before := rows;
      assert forall id :: id in batch ==> Claimable(before, now, locked, id);
      if fault.Lands() {
        rows := Leased(rows, batch, leaseUntil);
      }
      if !fault.Works? {
        return Error("claim pending outbox events");
      }
      var claimed := [];
      var i := 0;
      while i < |batch|
        invariant 0 <= i <= |batch|
        invariant forall id :: id in batch[..i] ==> id in batch
        invariant claimed == Claimed(before, batch[..i])
      {
        assert batch[i] in batch;
        var row := before[batch[i]];
        claimed := claimed + [ClaimedEvent(row.event, row.createdAt, row.attempts)];
        i := i + 1;
        assert batch[..i][..|batch[..i]| - 1] == batch[..i - 1];
      }
      assert batch[..i] == batch;
      return Ok(claimed);
    }

    method MarkPublished(id: string, at: Time, fault: Fault) returns (failure: Option<string>)
      modifies this
      ensures id == "" || at == ZERO_TIME ==> failure.Some? && rows == old(rows)
      ensures id != "" && at != ZERO_TIME ==>
                && rows == (if fault.Lands() then Published(old(rows), id, at) else old(rows))
                && (failure.None? <==> fault.Works? && IsPending(old(rows), id))
      ensures OthersKept(old(rows), rows, id)
      ensures failure.None? ==>
                id in old(rows) && old(rows)[id].publishedAt.None? && id in rows
                && rows[id] == old(rows)[id].(publishedAt := Some(at), lastError := None)
    {
      if id == "" {
        return Some("outbox event ID is required");
      }
      if at == ZERO_TIME {
        return Some("outbox published time is required");
      }
      var affected := IsPending(rows, id);
      if fault.Lands() {
        rows := Published(rows, id, at);
      }
      if !fault.Works? {
        return Some("mark outbox event as published");
      }
      if !affected {
        return Some("pending outbox event not found");
      }
      return None;
    }

    method MarkFailed(id: string, next: Time, reason: string, fault: Fault) returns (failure: Option<string>)
      modifies this
      ensures id == "" || next == ZERO_TIME || reason == "" ==> failure.Some? && rows == old(rows)
      ensures id != "" && next != ZERO_TIME && reason != "" ==>
                && rows == (if fault.Lands() then Failed(old(rows), id, next, reason) else old(rows))
                && (failure.None? <==> fault.Works? && IsPending(old(rows), id))
      ensures OthersKept(old(rows), rows, id)
      ensures failure.None? ==>
                id in old(rows) && old(rows)[id].publishedAt.None? && id in rows
                && rows[id] == old(rows)[id].(attempts := old(rows)[id].attempts + 1, availableAt := next,
                                              lastError := Some(reason))
    {
      if id == "" {
        return Some("outbox event ID is required");
      }
      if next == ZERO_TIME {
        return Some("outbox next attempt time is required");
      }
      if reason == "" {
        return Some("outbox last error is required");
      }
      var affected := IsPending(rows, id);
      if fault.Lands() {
        rows := Failed(rows, id, next, reason);
      }
      if !fault.Works? {
        return Some("mark outbox event as failed");
      }
      if !affected {
        return Some("pending outbox event not found");
      }
      return None;
    }

    method DeletePublishedBefore(cutoff: Time, fault: Fault) returns (deleted: Result<nat>)
      modifies this
      ensures cutoff == ZERO_TIME ==> deleted.Error? && rows == old(rows)
      ensures cutoff != ZERO_TIME ==>
                && rows == (if fault.Lands() then Purged(old(rows), cutoff) else old(rows))
                && (deleted.Ok? <==> fault.Works?)
                && (deleted.Ok? ==> deleted.value + |rows| == |old(rows)|)
                && (fault.Lands() ==> PublishedGone(old(rows), rows, cutoff))
    {
      if cutoff == ZERO_TIME {
        return Error("outbox cleanup cutoff is required");
      }
      var kept := Purged(rows, cutoff);
      assert kept.Keys <= rows.Keys;
      assert |rows.Keys - kept.Keys| == |rows.Keys| - |kept.Keys|;
      var affected := |rows| - |kept|;
      if fault.Lands() {
        rows := kept;
      }
      if !fault.Works? {
        return Error("delete published outbox events");
      }
      return Ok(affected);
    }
  }
}
