/** The read-through, write-through room cache, over a repository seen as a map (see RoomTables.SavingSetsAKey). */
module RoomCache {
  import opened Common
  import opened Rooms

  datatype Entry = Entry(room: Room, setAt: Time)

  type Store = map<string, Room>
  type Cache = map<string, Entry>

  /** Each call is one atomic operation. `Evict` and `Wait` are the cache's and the clock's own steps. */
  datatype Op =
    | Get(id: string, lookup: Fault, repo: Fault, fill: Fault)
    | GetAll(repo: Fault)
    | Save(room: Option<Room>, repo: Fault, fill: Fault)
    | Delete(id: string, repo: Fault, drop: Fault)
    | Evict(id: string)
    | Wait(elapsed: nat)

  datatype Answer = Found(room: Option<Room>) | All(rooms: Store) | Done | Failed

  /** `snapshots` is history: the store after every operation, with its time. */
  datatype Snapshot = Snapshot(at: Time, store: Store)
  datatype State = State(now: Time, store: Store, cache: Cache, snapshots: seq<Snapshot>)

  // ---------- the repository alone ----------

  function Lookup(store: Store, id: string): Option<Room> {
    if id == "" || id !in store then None else Some(store[id])
  }

  function Bare(store: Store, op: Op): (Store, Answer) {
    match op
    case Get(id, _, repo, _) => (store, if repo.Works? then Found(Lookup(store, id)) else Failed)
    case GetAll(repo) => (store, if repo.Works? then All(store) else Failed)
    case Save(room, repo, _) =>
      if room.None? then (store, Done)
      else (if repo.Lands() then store[room.value.id := room.value] else store, if repo.Works? then Done else Failed)
    case Delete(id, repo, _) =>
      (if repo.Lands() then store - {id} else store, if repo.Works? then Done else Failed)
    case Evict(_) => (store, Done)
    case Wait(_) => (store, Done)
  }

  // ---------- the repository behind the cache ----------

  predicate Fresh(cache: Cache, id: string, now: Time, ttl: int) {
    id in cache && now < cache[id].setAt + ttl
  }

  function Filled(cache: Cache, id: string, room: Room, now: Time, fault: Fault): Cache {
    if fault.Lands() then cache[id := Entry(room, now)] else cache
  }

  function CacheAfter(s: State, op: Op, ttl: int): Cache {
    match op
    case Get(id, lookup, repo, fill) =>
      if lookup.Works? && Fresh(s.cache, id, s.now, ttl) then s.cache
      else if repo.Works? && Lookup(s.store, id).Some? then Filled(s.cache, s.store[id].id, s.store[id], s.now, fill)
      else s.cache
    case GetAll(_) => s.cache
    case Save(room, repo, fill) =>
      if room.Some? && repo.Works? then Filled(s.cache, room.value.id, room.value, s.now, fill) else s.cache
    case Delete(id, repo, drop) => if repo.Works? && drop.Lands() then s.cache - {id} else s.cache
    case Evict(id) => s.cache - {id}
    case Wait(_) => s.cache
  }

  function CachedAnswer(s: State, op: Op, ttl: int): Answer {
    match op
    case Get(id, lookup, repo, _) =>
      if lookup.Works? && Fresh(s.cache, id, s.now, ttl) then Found(Some(s.cache[id].room)) else Bare(s.store, op).1
    case _ => Bare(s.store, op).1
  }

  function Next(s: State, op: Op, ttl: int): State {
    var store := Bare(s.store, op).0;
    var now := if op.Wait? then s.now + op.elapsed else s.now;
    State(now, store, CacheAfter(s, op, ttl), s.snapshots + [Snapshot(now, store)])
  }

  function Run(s: State, ops: seq<Op>, ttl: int): State {
    if ops == [] then s else Next(Run(s, ops[..|ops| - 1], ttl), ops[|ops| - 1], ttl)
  }

  class CachedRoomRepository {
    const ttl: int
    var store: Store
    var cache: Cache

    constructor (ttl: int)
      ensures this.ttl == ttl && store == map[] && cache == map[]
    {
      this.ttl := ttl;
      store, cache := map[], map[];
    }

    function View(now: Time): State
      reads this
    {
      State(now, store, cache, [])
    }

    method GetRoom(id: string, now: Time, lookup: Fault, repo: Fault, fill: Fault) returns (room: Result<Option<Room>>)
      modifies this
      ensures var op := Get(id, lookup, repo, fill);
              && store == Next(old(View(now)), op, ttl).store
              && cache == Next(old(View(now)), op, ttl).cache
              && CachedAnswer(old(View(now)), op, ttl) == if room.Ok? then Found(room.value) else Failed
    {
      if lookup.Works? {
        if Fresh(cache, id, now, ttl) {
          return Ok(Some(cache[id].room));
        }
      }
      if !repo.Works? {
        return Error("get room");
      }
      if id == "" || id !in store {
        return Ok(None);
      }
      var found := store[id];
      if fill.Lands() {
        cache := cache[found.id := Entry(found, now)];
      }
      return Ok(Some(found));
    }

    method SaveRoom(room: Option<Room>, now: Time, repo: Fault, fill: Fault) returns (failed: bool)
      modifies this
      ensures var op := Save(room, repo, fill);
              && store == Next(old(View(now)), op, ttl).store
              && cache == Next(old(View(now)), op, ttl).cache
              && CachedAnswer(old(View(now)), op, ttl) == if failed then Failed else Done
    {
      if room.None? {
        return false;
      }
      if repo.Lands() {
        store := store[room.value.id := room.value];
      }
      if !repo.Works? {
        return true;
      }
      if fill.Lands() {
        cache := cache[room.value.id := Entry(room.value, now)];
      }
      return false;
    }

    method DeleteRoom(id: string, now: Time, repo: Fault, drop: Fault) returns (failed: bool)
      modifies this
      ensures var op := Delete(id, repo, drop);
              && store == Next(old(View(now)), op, ttl).store
              && cache == Next(old(View(now)), op, ttl).cache
              && CachedAnswer(old(View(now)), op, ttl) == if failed then Failed else Done
    {
      if repo.Lands() {
        store := store - {id};
      }
      if !repo.Works? {
        return true;
      }
      if drop.Lands() {
        cache := cache - {id};
      }
      return false;
    }

    method GetAllRooms(repo: Fault) returns (rooms: Result<Store>)
      ensures rooms.Ok? <==> repo.Works?
      ensures rooms.Ok? ==> rooms.value == store
    {
      if !repo.Works? {
        return Error("get all rooms");
      }
      return Ok(store);
    }
  }

  // ---------- agreement with the repository alone ----------

  predicate Keyed(store: Store) {
    forall id :: id in store ==> store[id].id == id
  }

  /** Every cached room is the stored one, and can be asked for. */
  predicate Coherent(s: State) {
    && Keyed(s.store)
    && forall id :: id in s.cache ==> id != "" && id in s.store && s.cache[id].room == s.store[id]
  }

  /** The write reached the store but not the cache, or reached the cache under the empty ID, which the store never finds. */
  predicate Risky(op: Op) {
    match op
    case Save(room, repo, fill) =>
      && room.Some?
      && if room.value.id == "" then repo.Works? && fill.Lands()
         else repo.LandsWithError? || (repo.Works? && !fill.Lands())
    case Delete(id, repo, drop) => id != "" && (repo.LandsWithError? || (repo.Works? && !drop.Lands()))
    case _ => false
  }

  lemma SafeOpsKeepCoherence(s: State, op: Op, ttl: int)
    requires Coherent(s) && !Risky(op)
    ensures Coherent(Next(s, op, ttl))
  {
  }

  /** The operations that keep the cache coherent, whatever it holds, are exactly those that are not risky. */
  lemma ExactlyRiskyOpsBreakCoherence(op: Op, ttl: int)
    ensures !Risky(op) <==> forall s :: Coherent(s) ==> Coherent(Next(s, op, ttl))
  {
    if Risky(op) {
      var s := Broken(op, ttl);
      assert Coherent(s) && !Coherent(Next(s, op, ttl));
    } else {
      forall s | Coherent(s)
        ensures Coherent(Next(s, op, ttl))
      {
        SafeOpsKeepCoherence(s, op, ttl);
      }
    }
  }

  lemma Broken(op: Op, ttl: int) returns (s: State)
    requires Risky(op)
    ensures Coherent(s) && !Coherent(Next(s, op, ttl))
  {
    var id := if op.Save? then op.room.value.id else op.id;
    if id == "" {
      s := State(0, map[], map[], []);
      assert "" in Next(s, op, ttl).cache;
    } else {
      var stale := if op.Save? then op.room.value.(lastUpdated := op.room.value.lastUpdated + 1) else Room(id, [], 0);
      s := State(0, map[id := stale], map[id := Entry(stale, 0)], []);
      var t := Next(s, op, ttl);
      assert id in t.cache && t.cache[id].room == stale;
      assert op.Save? ==> t.store[id] == op.room.value;
    }
  }

  predicate AllSafe(ops: seq<Op>) {
    forall op :: op in ops ==> !Risky(op)
  }

  function BareRun(store: Store, ops: seq<Op>): Store {
    if ops == [] then store else Bare(BareRun(store, ops[..|ops| - 1]), ops[|ops| - 1]).0
  }

  lemma {:induction false} SafeRunsStayCoherent(s: State, ops: seq<Op>, ttl: int)
    requires Coherent(s) && AllSafe(ops)
    ensures Coherent(Run(s, ops, ttl)) && Run(s, ops, ttl).store == BareRun(s.store, ops)
  {
    if ops != [] {
      var prefix := ops[..|ops| - 1];
      SafeRunsStayCoherent(s, prefix, ttl);
      SafeOpsKeepCoherence(Run(s, prefix, ttl), ops[|ops| - 1], ttl);
    }
  }

  /** The repository alone would have answered so, or would have had it worked. */
  predicate Agrees(s: State, op: Op, ttl: int) {
    || CachedAnswer(s, op, ttl) == Bare(s.store, op).1
    || (op.Get? && !op.repo.Works? && CachedAnswer(s, op, ttl) == Found(Lookup(s.store, op.id)))
  }

  function Empty(now: Time): State { State(now, map[], map[], []) }

  /** From an empty cache, with no risky operation, every call answers what the repository alone would answer;
      where the repository would fail to read, a hit answers what it would have answered had it worked. */
  lemma CacheAgreesWithStore(now: Time, ops: seq<Op>, op: Op, ttl: int)
    requires AllSafe(ops)
    ensures Run(Empty(now), ops, ttl).store == BareRun(map[], ops)
    ensures Agrees(Run(Empty(now), ops, ttl), op, ttl)
  {
    SafeRunsStayCoherent(Empty(now), ops, ttl);
  }

  lemma RunSnoc(s: State, ops: seq<Op>, op: Op, ttl: int)
    ensures Run(s, ops + [op], ttl) == Next(Run(s, ops, ttl), op, ttl)
  {
    assert (ops + [op])[..|ops|] == ops;
  }

  function Written(op: Op): string
    requires Risky(op)
  {
    if op.Save? then op.room.value.id else op.id
  }

  /** A room that the risky operation is about to replace or delete. */
  function Stale(op: Op): Room
    requires Risky(op)
  {
    if op.Save? then op.room.value.(lastUpdated := op.room.value.lastUpdated + 1) else Room(op.id, [], 0)
  }

  lemma WrongAfter(s: State, op: Op, ttl: int)
    requires Risky(op) && ttl > 0
    requires Written(op) != "" ==>
               s.store == map[Written(op) := Stale(op)] && s.cache == map[Written(op) := Entry(Stale(op), s.now)]
    requires Written(op) == "" ==> s.cache == map[]
    ensures !Agrees(Next(s, op, ttl), Get(Written(op), Works, Works, NoEffect), ttl)
  {
    var t := Next(s, op, ttl);
    assert t.now == s.now && Fresh(t.cache, Written(op), t.now, ttl);
  }

  /** After a risky operation on what a safe run left, a lookup answers what the repository does not. */
  lemma WrongAnswer(op: Op, ttl: int) returns (ops: seq<Op>)
    requires Risky(op) && ttl > 0
    ensures AllSafe(ops) && !Agrees(Run(Empty(0), ops + [op], ttl), Get(Written(op), Works, Works, NoEffect), ttl)
  {
    var save := Save(Some(Stale(op)), Works, Works);
    RunSnoc(Empty(0), [], save, ttl);
    ops := if Written(op) == "" then [] else [] + [save];
    assert Run(Empty(0), [], ttl) == Empty(0);
    RunSnoc(Empty(0), ops, op, ttl);
    WrongAfter(Run(Empty(0), ops, ttl), op, ttl);
  }

  /** An operation can make the cache answer what the repository alone would not, after some safe run from the empty
      cache, exactly when it is risky and entries live at all. */
  lemma ExactlyRiskyOpsMakeAnswersDiffer(op: Op, ttl: int)
    ensures ttl > 0 && Risky(op) <==>
              exists now, ops, asked :: AllSafe(ops) && !Agrees(Run(Empty(now), ops + [op], ttl), asked, ttl)
  {
    if ttl > 0 && Risky(op) {
      var ops := WrongAnswer(op, ttl);
    }
    forall now, ops, asked | AllSafe(ops) && !(ttl > 0 && Risky(op))
      ensures Agrees(Run(Empty(now), ops + [op], ttl), asked, ttl)
    {
      if ttl > 0 {
        SafeRunsStayCoherent(Empty(now), ops + [op], ttl);
      } else {
        RunKeepsEntriesHeld(Empty(now), ops + [op], ttl);
      }
    }
  }

  // ---------- freshness under any failures ----------

  /** The store held this room at this time. */
  ghost predicate HeldAt(s: State, id: string, room: Room, at: Time) {
    exists k :: 0 <= k < |s.snapshots| && s.snapshots[k].at == at && id in s.snapshots[k].store
                && s.snapshots[k].store[id] == room
  }

  ghost predicate EntriesHeld(s: State) {
    && Keyed(s.store)
    && forall id :: id in s.cache ==> s.cache[id].setAt <= s.now && HeldAt(s, id, s.cache[id].room, s.cache[id].setAt)
  }

  lemma HeldStaysHeld(s: State, op: Op, ttl: int, id: string, room: Room, at: Time)
    requires HeldAt(s, id, room, at)
    ensures HeldAt(Next(s, op, ttl), id, room, at)
  {
    var k :| 0 <= k < |s.snapshots| && s.snapshots[k].at == at && id in s.snapshots[k].store
             && s.snapshots[k].store[id] == room;
    assert Next(s, op, ttl).snapshots[k] == s.snapshots[k];
  }

  lemma StoreIsHeld(s: State, op: Op, ttl: int, id: string)
    requires id in Next(s, op, ttl).store
    ensures HeldAt(Next(s, op, ttl), id, Next(s, op, ttl).store[id], Next(s, op, ttl).now)
  {
    var t := Next(s, op, ttl);
    assert t.snapshots[|s.snapshots|] == Snapshot(t.now, t.store);
  }

  lemma NextKeepsEntriesHeld(s: State, op: Op, ttl: int)
    requires EntriesHeld(s)
    ensures EntriesHeld(Next(s, op, ttl))
  {
    var t := Next(s, op, ttl);
    forall id | id in t.cache
      ensures t.cache[id].setAt <= t.now && HeldAt(t, id, t.cache[id].room, t.cache[id].setAt)
    {
      if id in s.cache && t.cache[id] == s.cache[id] {
        HeldStaysHeld(s, op, ttl, id, s.cache[id].room, s.cache[id].setAt);
      } else {
        StoreIsHeld(s, op, ttl, id);
      }
    }
  }

  lemma {:induction false} RunKeepsEntriesHeld(s: State, ops: seq<Op>, ttl: int)
    requires EntriesHeld(s)
    ensures EntriesHeld(Run(s, ops, ttl))
  {
    if ops != [] {
      RunKeepsEntriesHeld(s, ops[..|ops| - 1], ttl);
      NextKeepsEntriesHeld(Run(s, ops[..|ops| - 1], ttl), ops[|ops| - 1], ttl);
    }
  }

  /** Under any failures of cache and repository, a room that Get returns was the stored one less than a TTL ago. */
  lemma AnswersAreFresh(now: Time, ops: seq<Op>, op: Op, ttl: int)
    requires ttl > 0 && op.Get?
    requires CachedAnswer(Run(Empty(now), ops, ttl), op, ttl).Found?
    ensures var s := Run(Empty(now), ops, ttl);
            var answer := CachedAnswer(s, op, ttl).room;
            && (answer.Some? ==> exists at :: s.now - ttl < at <= s.now && HeldAt(Next(s, op, ttl), op.id, answer.value, at))
            && (answer.None? ==> Lookup(s.store, op.id).None?)
  {
    RunKeepsEntriesHeld(Empty(now), ops, ttl);
    var s := Run(Empty(now), ops, ttl);
    var answer := CachedAnswer(s, op, ttl).room;
    if answer.Some? {
      if op.lookup.Works? && Fresh(s.cache, op.id, s.now, ttl) {
        HeldStaysHeld(s, op, ttl, op.id, s.cache[op.id].room, s.cache[op.id].setAt);
      } else {
        StoreIsHeld(s, op, ttl, op.id);
      }
    }
  }

  // ---------- what the cache is for ----------

  predicate Touches(op: Op, id: string) {
    match op
    case Save(room, _, _) => room.Some? && room.value.id == id
    case Delete(other, _, _) => other == id
    case Evict(other) => other == id
    case _ => false
  }

  /** The entry under `id` is the stored room, no older than `since`. */
  predicate Holding(s: State, id: string, room: Room, since: Time) {
    id in s.store && s.store[id] == room && id in s.cache && s.cache[id].room == room && since <= s.cache[id].setAt
  }

  lemma {:induction false} UntouchedEntryStays(s: State, ops: seq<Op>, ttl: int, id: string, room: Room, since: Time)
    requires Keyed(s.store) && Holding(s, id, room, since) && since <= s.now
    requires forall op :: op in ops ==> !Touches(op, id)
    ensures var t := Run(s, ops, ttl); Keyed(t.store) && Holding(t, id, room, since) && s.now <= t.now
  {
    if ops != [] {
      var last := ops[|ops| - 1];
      assert !Touches(last, id);
      UntouchedEntryStays(s, ops[..|ops| - 1], ttl, id, room, since);
    }
  }

  /** The call leaves the room cached: a lookup that had to ask the repository, or a save, whose cache write landed. */
  predicate Caches(s: State, op: Op, ttl: int, room: Room) {
    match op
    case Get(id, lookup, repo, fill) =>
      !(lookup.Works? && Fresh(s.cache, id, s.now, ttl)) && repo.Works? && Lookup(s.store, id) == Some(room) && fill.Lands()
    case Save(saved, repo, fill) => saved == Some(room) && repo.Works? && fill.Lands()
    case _ => false
  }

  /** Until its entry ages, is evicted or the room is written, a cached room is answered even while the repository fails. */
  lemma CachedRoomOutlastsRepository(s: State, op: Op, ops: seq<Op>, ttl: int, room: Room, get: Op)
    requires Keyed(s.store) && Caches(s, op, ttl, room) && get.Get? && get.id == room.id && get.lookup.Works?
    requires forall later :: later in ops ==> !Touches(later, room.id)
    requires Run(Next(s, op, ttl), ops, ttl).now < s.now + ttl
    ensures CachedAnswer(Run(Next(s, op, ttl), ops, ttl), get, ttl) == Found(Some(room))
  {
    var t := Next(s, op, ttl);
    assert Keyed(t.store) && Holding(t, room.id, room, s.now);
    UntouchedEntryStays(t, ops, ttl, room.id, room, s.now);
  }
}
