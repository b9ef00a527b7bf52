/**
 The delivery protocol that keeps the vector index equal to the store: the outbox table
 (outbox.py), the readers/writer gate (maintenance.py), generation rebuilds (reindex.py) and
 the part of an erasure that touches rows, events and points (privacy.py).

 One labelled step is one database transaction or one external write; any interleaving of
 workers is a sequence of steps.
 */
module Outbox {
  import opened Options

  datatype Entity = Entity(collection: string, id: string)

  /** What a point says: `author` is a memory's author or a message's user, `inference` whether a dream wrote it. */
  datatype Payload = Payload(scopeId: string, text: string, fields: string, author: string, inference: bool)

  /** Whose data an erasure removes: a user and their private scope. */
  datatype Owner = Owner(user: string, scope: string)

  datatype Operation = Upsert | Delete
  datatype Status = Pending | Processing | Done | Failed

  /** One row of index_outbox; its key in `State.events` is the row id. */
  datatype Event = Event(
    entity: Entity, op: Operation, payload: Payload, status: Status,
    attempts: nat, availableAt: int, token: Option<nat>, lease: int)

  /** What a worker still has to do with a row it claimed. */
  datatype Phase =
    | Held                                              // claimed, not yet fenced
    | Writing(current: Option<Payload>, landed: bool)   // row locked, shared gate held
    | Failing                                           // rolled back, failure not yet recorded
    | Yielding                                          // gate was busy, row not yet returned

  /** A worker's copy of a claimed row, under the token of that claim. */
  datatype Ticket = Ticket(id: nat, entity: Entity, op: Operation, payload: Payload, attempts: nat, phase: Phase)

  datatype Gate =
    | Open
    | Rebuilding(generation: map<Entity, Payload>, validated: bool)
    | Erasing

  datatype State = State(
    store: map<Entity, Payload>,    // entity -> payload an up-to-date index holds
    index: map<Entity, Payload>,    // the served index
    events: map<nat, Event>,
    nextId: nat,
    latest: map<Entity, nat>,       // derived: each entity's newest event
    tickets: map<nat, Ticket>,      // by claim token; lost with the worker
    nextToken: nat,
    gate: Gate,
    lapsed: set<Entity>,            // expired by the clock alone, without an event
    erased: set<Entity>,            // deleted by an erasure; identifiers are never reused
    owners: set<Owner>,             // whose data was erased from the store
    cleanup: map<Entity, Owner>,    // erased, index removal still owed by that owner's erase job
    stranded: set<Entity>)          // erased, missed by the removal and still served

  datatype Step =
    | Write(entity: Entity, value: Option<Payload>, op: Operation, payload: Payload, now: int)
    | Reenqueue(entity: Entity, now: int)
    | Lapse(entity: Entity)
    | Claim(now: int, leaseSeconds: nat, ignoreSchedule: bool, row: Option<nat>)
    | Fence(token: nat, now: int)
    | Land(token: nat)
    | Commit(token: nat)
    | Rollback(token: nat)
    | MarkFailed(token: nat, now: int, maxAttempts: nat)
    | MarkYielded(token: nat)
    | Crash(token: nat)
    | BeginRebuild
    | Validate
    | Activate
    | BeginErase
    | EraseStore(owner: Owner, dead: set<Entity>)
    | EraseIndex(owner: Owner)
    | EndMaintenance

  const Initial := State(map[], map[], map[], 0, map[], map[], 0, Open, {}, {}, {}, map[], {})

  predicate WellFormed(p: Payload) {
    p.scopeId != "" && p.text != ""
  }

  predicate Outstanding(status: Status) {
    status.Pending? || status.Processing?
  }

  // ---- the outbox rows ----

  function NewEvent(e: Entity, op: Operation, payload: Payload, now: int): Event {
    Event(e, op, payload, Pending, 0, now, None, 0)
  }

  function Enqueue(s: State, e: Entity, op: Operation, payload: Payload, now: int): State {
    s.(events := s.events[s.nextId := NewEvent(e, op, payload, now)], nextId := s.nextId + 1,
       latest := s.latest[e := s.nextId])
  }

  predicate Expired(ev: Event, now: int) {
    ev.status.Processing? && ev.token.Some? && ev.lease <= now
  }

  predicate Locked(s: State, id: nat) {
    exists t :: t in s.tickets && s.tickets[t].id == id && s.tickets[t].phase.Writing?
  }

  function Freed(ev: Event): Event {
    ev.(status := Pending, token := None, lease := 0)
  }

  function Reclaimed(events: map<nat, Event>, now: int): map<nat, Event> {
    map id | id in events :: if Expired(events[id], now) then Freed(events[id]) else events[id]
  }

  predicate Eligible(events: map<nat, Event>, id: nat, now: int, ignoreSchedule: bool) {
    && id in events
    && events[id].status.Pending?
    && (ignoreSchedule || events[id].availableAt <= now)
    && forall j :: j in events && j < id && events[j].entity == events[id].entity ==> !Outstanding(events[j].status)
  }

  /** ORDER BY id LIMIT 1 over the eligible rows: what a claim takes when no one else is claiming. */
  predicate IsNext(events: map<nat, Event>, now: int, ignoreSchedule: bool, row: Option<nat>) {
    && (row.Some? ==> Eligible(events, row.value, now, ignoreSchedule))
    && forall id {:trigger Eligible(events, id, now, ignoreSchedule)} ::
         id in events && Eligible(events, id, now, ignoreSchedule) ==> row.Some? && row.value <= id
  }

  /** What the protocol needs of a claim: another claimer's locked row may be skipped, and then a later one is taken. */
  predicate Claimable(events: map<nat, Event>, now: int, ignoreSchedule: bool, row: Option<nat>) {
    row.Some? ==> Eligible(events, row.value, now, ignoreSchedule)
  }

  /** The reclaiming update waits for a row that an unfinished delivery has locked. */
  predicate ReclaimBlocked(s: State, now: int) {
    exists id :: id in s.events && Expired(s.events[id], now) && Locked(s, id)
  }

  function ClaimRow(s: State, id: nat, until: int): State
    requires id in s.events
  {
    var ev := s.events[id];
    s.(events := s.events[id := ev.(status := Processing, token := Some(s.nextToken), lease := until)],
       tickets := s.tickets[s.nextToken := Ticket(id, ev.entity, ev.op, ev.payload, ev.attempts, Held)],
       nextToken := s.nextToken + 1)
  }

  // ---- delivery ----

  /** The external call one delivery makes, from the row's copy and the payload read under the fence. */
  datatype Effect = Remove | Keep | Put(payload: Payload) | Reject

  function Decide(op: Operation, payload: Payload, current: Option<Payload>): Effect {
    if current.Some? && op.Upsert? && payload.text == "" then Reject
    else if current.None? || (payload.scopeId == "" && op.Delete?) then Remove
    else if op.Delete? || current.value != payload then Keep
    else Put(payload)
  }

  function Touch(index: map<Entity, Payload>, e: Entity, effect: Effect): map<Entity, Payload> {
    match effect
    case Remove => index - {e}
    case Put(p) => index[e := p]
    case _ => index
  }

  /** The row is still leased to this token. */
  predicate Owns(s: State, t: nat) {
    t in s.tickets
    && var id := s.tickets[t].id;
       id in s.events && s.events[id].status.Processing? && s.events[id].token == Some(t)
  }

  function Drop(s: State, t: nat): State {
    s.(tickets := s.tickets - {t})
  }

  function SetPhase(s: State, t: nat, phase: Phase): State
    requires t in s.tickets
  {
    s.(tickets := s.tickets[t := s.tickets[t].(phase := phase)])
  }

  function Authoritative(s: State, e: Entity, payload: Payload): Option<Payload> {
    if payload.scopeId != "" then Lookup(s.store, e) else Some(payload)
  }

  function Backoff(attempts: nat): nat {
    if attempts == 0 then 1 else if attempts >= 8 then 256 else 2 * Backoff(attempts - 1)
  }

  function RetryDelay(attempts: nat): nat {
    var d := Backoff(attempts);
    if d < 300 then d else 300
  }

  function FailedRow(ev: Event, attempts: nat, now: int, maxAttempts: nat): Event {
    ev.(status := if attempts >= maxAttempts then Failed else Pending,
        attempts := attempts, availableAt := now + RetryDelay(attempts), token := None, lease := 0)
  }

  predicate AnyWriting(s: State) {
    exists t :: t in s.tickets && s.tickets[t].phase.Writing?
  }

  // ---- erasure ----

  const RAW := "raw"

  /** The erasure of this owner selects what is described so: a row by what it is, a point by the payload it serves. */
  predicate Selected(e: Entity, p: Payload, owner: Owner) {
    if e.collection == RAW then p.author == owner.user
    else p.scopeId == owner.scope || (p.author == owner.user && p.inference)
  }

  /** A row needs its scope and its author, and those of an erased owner are gone. */
  predicate OfErased(s: State, e: Entity, p: Payload) {
    exists owner :: owner in s.owners && Selected(e, p, owner)
  }

  /** The rows an erasure deletes: the live ones it selects, and `dead` ones, whatever they say. */
  function Targets(s: State, owner: Owner, dead: set<Entity>): set<Entity> {
    (set e | e in s.store && Selected(e, s.store[e], owner)) + (dead - s.store.Keys - s.erased)
  }

  /** _erase_database: rows and events go in one transaction, their points are owed. */
  function EraseRows(s: State, owner: Owner, targets: set<Entity>): (s': State)
    ensures s' == s.(store := s'.store, lapsed := s'.lapsed, events := s'.events, latest := s'.latest, erased := s'.erased,
                     owners := s'.owners, cleanup := s'.cleanup)
    ensures s'.erased == s.erased + targets && s'.owners == s.owners + {owner}
  {
    s.(store := s.store - targets, lapsed := s.lapsed - targets,
       events := map id | id in s.events && s.events[id].entity !in targets :: s.events[id],
       latest := s.latest - targets, erased := s.erased + targets, owners := s.owners + {owner},
       cleanup := map e | e in s.cleanup.Keys + targets :: if e in targets then owner else s.cleanup[e])
  }

  /** erase_user_indices: the points whose served payload is selected go. What was owed for this owner no longer is. */
  function EraseServed(s: State, owner: Owner): (s': State)
    ensures s' == s.(index := s'.index, cleanup := s'.cleanup, stranded := s'.stranded)
  {
    var index := map e | e in s.index && !Selected(e, s.index[e], owner) :: s.index[e];
    s.(index := index, cleanup := map e | e in s.cleanup && s.cleanup[e] != owner :: s.cleanup[e],
       stranded := set e | e in index && (e in s.stranded || (e in s.cleanup && s.cleanup[e] == owner)))
  }

  // ---- one function per step, with what it may change; a step whose guard is false leaves the state as it is ----

  /** A mutation and its event commit together, and only while no one else holds the gate. */
  function Mutate(s: State, e: Entity, value: Option<Payload>, op: Operation, payload: Payload, now: int): (s': State)
    ensures s' == s.(store := s'.store, events := s'.events, nextId := s'.nextId, latest := s'.latest, lapsed := s'.lapsed)
  {
    if s.gate.Rebuilding? || e in s.erased || payload.scopeId == "" || (op.Upsert? && payload.text == "") then s
    else if value.Some? && (!WellFormed(value.value) || op.Delete? || payload != value.value) then s
    else if value.Some? && OfErased(s, e, value.value) then s
    else
      Enqueue(s, e, op, payload, now).(
        store := if value.Some? then s.store[e := value.value] else s.store - {e},
        lapsed := s.lapsed - {e})
  }

  function EnqueueAgain(s: State, e: Entity, now: int): (s': State)
    ensures s' == s.(events := s'.events, nextId := s'.nextId, latest := s'.latest)
  {
    if s.gate.Rebuilding? || e !in s.store then s else Enqueue(s, e, Upsert, s.store[e], now)
  }

  function Expire(s: State, e: Entity): (s': State)
    ensures s' == s.(store := s'.store, lapsed := s'.lapsed)
  {
    if e !in s.store then s else s.(store := s.store - {e}, lapsed := s.lapsed + {e})
  }

  function ClaimOne(s: State, now: int, leaseSeconds: nat, ignoreSchedule: bool, row: Option<nat>): (s': State)
    ensures s' == s.(events := s'.events, tickets := s'.tickets, nextToken := s'.nextToken)
  {
    var r := s.(events := Reclaimed(s.events, now));
    if ReclaimBlocked(s, now) || !Claimable(r.events, now, ignoreSchedule, row) then s
    else if row.None? then r
    else ClaimRow(r, row.value, now + leaseSeconds)
  }

  function FenceRow(s: State, t: nat, now: int): (s': State)
    ensures s' == s.(tickets := s'.tickets)
  {
    if t !in s.tickets || !s.tickets[t].phase.Held? then s
    else if !s.gate.Open? then SetPhase(s, t, Yielding)
    else if Owns(s, t) && s.events[s.tickets[t].id].lease > now then
      SetPhase(s, t, Writing(Authoritative(s, s.tickets[t].entity, s.tickets[t].payload), false))
    else Drop(s, t)
  }

  function LandPoint(s: State, t: nat): (s': State)
    ensures s' == s.(tickets := s'.tickets, index := s'.index)
  {
    if t !in s.tickets || !s.tickets[t].phase.Writing? then s
    else
      var k := s.tickets[t];
      var effect := Decide(k.op, k.payload, k.phase.current);
      if effect.Reject? then s
      else SetPhase(s, t, k.phase.(landed := true)).(index := Touch(s.index, k.entity, effect))
  }

  function MarkDone(s: State, t: nat): (s': State)
    ensures s' == s.(tickets := s'.tickets, events := s'.events)
  {
    if t !in s.tickets || !s.tickets[t].phase.Writing? || !s.tickets[t].phase.landed || !Owns(s, t) then s
    else
      var id := s.tickets[t].id;
      Drop(s, t).(events := s.events[id := s.events[id].(status := Done, token := None, lease := 0)])
  }

  function RollBack(s: State, t: nat): (s': State)
    ensures s' == s.(tickets := s'.tickets)
  {
    if t !in s.tickets || !s.tickets[t].phase.Writing? then s else SetPhase(s, t, Failing)
  }

  function PutBack(s: State, t: nat, now: int, maxAttempts: nat): (s': State)
    ensures s' == s.(tickets := s'.tickets, events := s'.events)
  {
    if t !in s.tickets || !s.tickets[t].phase.Failing? then s
    else if !Owns(s, t) then Drop(s, t)
    else
      var k := s.tickets[t];
      Drop(s, t).(events := s.events[k.id := FailedRow(s.events[k.id], k.attempts + 1, now, maxAttempts)])
  }

  function ReturnRow(s: State, t: nat): (s': State)
    ensures s' == s.(tickets := s'.tickets, events := s'.events)
  {
    if t !in s.tickets || !s.tickets[t].phase.Yielding? then s
    else if !Owns(s, t) then Drop(s, t)
    else Drop(s, t).(events := s.events[s.tickets[t].id := Freed(s.events[s.tickets[t].id])])
  }

  function StartRebuild(s: State): (s': State)
    ensures s' == s.(gate := s'.gate)
  {
    if !s.gate.Open? || AnyWriting(s) then s else s.(gate := Rebuilding(s.store, false))
  }

  /** Expiry is driven by the clock even while writes are frozen. */
  function ValidateGeneration(s: State): (s': State)
    ensures s' == s.(gate := s'.gate)
  {
    if !s.gate.Rebuilding? then s
    else s.(gate := Rebuilding(map e | e in s.gate.generation && e in s.store :: s.gate.generation[e], true))
  }

  function SwapIn(s: State): (s': State)
    ensures s' == s.(index := s'.index, lapsed := s'.lapsed, stranded := s'.stranded)
  {
    if !s.gate.Rebuilding? || !s.gate.validated then s
    else s.(index := s.gate.generation, lapsed := s.lapsed * s.gate.generation.Keys, stranded := {})
  }

  function StartErase(s: State): (s': State)
    ensures s' == s.(gate := s'.gate)
  {
    if !s.gate.Open? || AnyWriting(s) then s else s.(gate := Erasing)
  }

  function Apply(s: State, step: Step): State {
    match step
    case Write(e, value, op, payload, now) => Mutate(s, e, value, op, payload, now)
    case Reenqueue(e, now) => EnqueueAgain(s, e, now)
    case Lapse(e) => Expire(s, e)
    case Claim(now, leaseSeconds, ignoreSchedule, row) => ClaimOne(s, now, leaseSeconds, ignoreSchedule, row)
    case Fence(t, now) => FenceRow(s, t, now)
    case Land(t) => LandPoint(s, t)
    case Commit(t) => MarkDone(s, t)
    case Rollback(t) => RollBack(s, t)
    case MarkFailed(t, now, maxAttempts) => PutBack(s, t, now, maxAttempts)
    case MarkYielded(t) => ReturnRow(s, t)
    case Crash(t) => Drop(s, t)
    case BeginRebuild => StartRebuild(s)
    case Validate => ValidateGeneration(s)
    case Activate => SwapIn(s)
    case BeginErase => StartErase(s)
    case EraseStore(owner, dead) => if !s.gate.Erasing? then s else EraseRows(s, owner, Targets(s, owner, dead))
    case EraseIndex(owner) => if !s.gate.Erasing? || owner !in s.owners then s else EraseServed(s, owner)
    case EndMaintenance => s.(gate := Open)
  }

  function Run(s: State, steps: seq<Step>): State
    decreases |steps|
  {
    if steps == [] then s else Run(Apply(s, steps[0]), steps[1..])
  }

  // ---- what every reachable state satisfies ----

  predicate Newest(s: State, id: nat) {
    id in s.events && s.events[id].entity in s.latest && s.latest[s.events[id].entity] == id
  }

  ghost predicate Bounded(s: State) {
    && (forall id :: id in s.events ==> id < s.nextId && (s.events[id].token.Some? ==> s.events[id].token.value < s.nextToken))
    && (forall t :: t in s.tickets ==> t < s.nextToken)
    && (forall id :: id in s.events ==> s.events[id].entity in s.latest && id <= s.latest[s.events[id].entity])
    && (forall e :: e in s.latest ==> s.latest[e] in s.events && s.events[s.latest[e]].entity == e)
    && s.lapsed !! s.store.Keys
    && s.erased !! s.store.Keys
    && s.erased !! s.lapsed
    && s.cleanup.Keys <= s.erased
    && s.stranded <= s.erased
    && (forall id :: id in s.events ==> s.events[id].entity !in s.erased && s.events[id].payload.scopeId != ""
                                          && (s.events[id].op.Upsert? ==> s.events[id].payload.text != ""))
    && (forall e :: e in s.store ==> WellFormed(s.store[e]))
  }

  predicate Before(s: State, i: nat, j: nat) {
    i in s.events && j in s.events && i < j && s.events[i].entity == s.events[j].entity
  }

  /** The later of the two is still pending, or the earlier has left {pending, processing}. */
  predicate InOrder(s: State, i: nat, j: nat)
    requires i in s.events && j in s.events
  {
    s.events[j].status.Pending? || !Outstanding(s.events[i].status)
  }

  /** Per entity, events leave {pending, processing} in id order. */
  ghost predicate Ordered(s: State) {
    forall i, j {:trigger Before(s, i, j)} :: Before(s, i, j) ==> InOrder(s, i, j)
  }

  /** The newest event of an entity carries what the store holds for it. */
  ghost predicate Matching(s: State) {
    forall e :: e in s.latest && s.latest[e] in s.events && e in s.store ==>
      s.events[s.latest[e]].op.Upsert? && s.events[s.latest[e]].payload == s.store[e]
  }

  ghost predicate FlightOk(s: State, t: nat)
    requires t in s.tickets
  {
    var k := s.tickets[t];
    k.phase.Writing? ==>
      && s.gate.Open?
      && Owns(s, t)
      && s.events[k.id].entity == k.entity && s.events[k.id].op == k.op && s.events[k.id].payload == k.payload
      && (Newest(s, k.id) && k.entity in s.store ==> k.phase.current == Some(s.store[k.entity]))
      && (Newest(s, k.id) && k.entity !in s.store && k.phase.current.Some? ==> k.entity in s.lapsed)
      && (Newest(s, k.id) && k.phase.landed ==> Agrees(s, k.entity))
  }

  ghost predicate FlightsOk(s: State) {
    forall t {:trigger FlightOk(s, t)} :: t in s.tickets ==> FlightOk(s, t)
  }

  /** A held copy whose row is still leased to it is the row. */
  ghost predicate TicketsOk(s: State) {
    forall t :: t in s.tickets && Owns(s, t) ==>
      var k := s.tickets[t];
      s.events[k.id].entity == k.entity && s.events[k.id].op == k.op && s.events[k.id].payload == k.payload
      && s.events[k.id].attempts == k.attempts
  }

  ghost predicate GenerationOk(s: State) {
    s.gate.Rebuilding? ==>
      && (forall e :: e in s.store ==> e in s.gate.generation && s.gate.generation[e] == s.store[e])
      && (forall e :: e in s.gate.generation ==> e in s.store || e in s.lapsed)
  }

  /** Index and store say the same about this entity, or the difference is a known one. */
  predicate Agrees(s: State, e: Entity) {
    || Lookup(s.index, e) == Lookup(s.store, e)
    || e in s.lapsed
    || e in s.cleanup
    || e in s.stranded
  }

  /** No event of this entity is waiting, leased or given up on: its newest one, if any, is done. */
  predicate Settled(s: State, e: Entity) {
    e in s.latest && s.latest[e] in s.events ==> s.events[s.latest[e]].status.Done?
  }

  ghost predicate Coherent(s: State) {
    forall e: Entity {:trigger Settled(s, e)} :: Settled(s, e) ==> Agrees(s, e)
  }

  ghost predicate Tables(s: State) {
    Bounded(s) && Ordered(s) && Matching(s) && GenerationOk(s) && Coherent(s)
  }

  ghost predicate Deliveries(s: State) {
    FlightsOk(s) && TicketsOk(s)
  }

  /** Who owes what after erasures, and nothing an erased owner's erasure would select is left in the store. */
  ghost predicate ErasureOk(s: State) {
    && s.stranded <= s.index.Keys
    && (forall e :: e in s.cleanup ==> s.cleanup[e] in s.owners)
    && (forall e, owner :: e in s.store && owner in s.owners ==> !Selected(e, s.store[e], owner))
  }

  ghost predicate Core(s: State) {
    Tables(s) && Deliveries(s)
  }

  ghost predicate Inv(s: State) {
    Core(s) && ErasureOk(s)
  }

  // ---- what the service reports ----

  function NotDone(events: map<nat, Event>): set<nat> {
    set id | id in events && !events[id].status.Done?
  }

  /** pending_count: events not yet delivered, including those given up on. */
  function PendingCount(s: State): nat {
    |NotDone(s.events)|
  }
}
