/** Every step of the delivery protocol keeps its invariant; what that gives in every reachable state. */
module OutboxSafety {
  import opened Options
  import opened Outbox

  /** While any event of an entity is outstanding, so is its newest one. */
  lemma OutstandingNotSettled(s: State, id: nat)
    requires Bounded(s) && Ordered(s) && id in s.events && Outstanding(s.events[id].status)
    ensures !Settled(s, s.events[id].entity)
  {
    assert s.latest[s.events[id].entity] == id || Before(s, id, s.latest[s.events[id].entity]);
  }

  /** For each entity at most one event is processing, and it is the lowest outstanding one. */
  lemma ProcessingIsLowest(s: State, id: nat, j: nat)
    requires Ordered(s) && id in s.events && s.events[id].status.Processing?
    requires j in s.events && s.events[j].entity == s.events[id].entity && Outstanding(s.events[j].status)
    ensures id <= j
    ensures s.events[j].status.Processing? ==> id == j
  {
    assert id == j || Before(s, id, j) || Before(s, j, id);
  }

  // ---- mutations ----

  /** A mutation appends the newest event of its entity and touches nothing else of the others. */
  ghost predicate Appended(s: State, s': State, e: Entity, ev: Event) {
    && ev.entity == e && ev.status.Pending? && ev.token.None? && ev.payload.scopeId != ""
    && (ev.op.Upsert? ==> ev.payload.text != "")
    && e !in s.erased && !s.gate.Rebuilding?
    && s' == s.(events := s.events[s.nextId := ev], nextId := s.nextId + 1, latest := s.latest[e := s.nextId],
                store := s'.store, lapsed := s.lapsed - {e})
    && (forall x :: x != e ==> Lookup(s'.store, x) == Lookup(s.store, x))
    && (e in s'.store ==> WellFormed(s'.store[e]) && ev.op.Upsert? && ev.payload == s'.store[e])
  }

  lemma WriteAppends(s: State, step: Step)
    requires Bounded(s) && (step.Write? || step.Reenqueue?)
    ensures Apply(s, step) == s || exists ev :: Appended(s, Apply(s, step), step.entity, ev)
  {
    var s' := Apply(s, step);
    if s' != s {
      if step.Reenqueue? {
        assert s.lapsed - {step.entity} == s.lapsed;
      }
      assert Appended(s, s', step.entity, s'.events[s.nextId]);
    }
  }

  lemma AppendedBounded(s: State, s': State, e: Entity, ev: Event)
    requires Bounded(s) && Appended(s, s', e, ev)
    ensures Bounded(s')
  {
    forall x | x in s'.store
      ensures WellFormed(s'.store[x]) && x !in s'.lapsed && x !in s'.erased
    {
      if x != e { assert Lookup(s'.store, x) == Lookup(s.store, x); }
    }
  }

  lemma AppendedTables(s: State, s': State, e: Entity, ev: Event)
    requires Tables(s) && Appended(s, s', e, ev) && Bounded(s')
    ensures Ordered(s') && Matching(s') && GenerationOk(s') && Coherent(s')
  {
    AppendedOrder(s, s', e, ev);
    hide Ordered, Matching, GenerationOk;
    forall x: Entity | Settled(s', x)
      ensures Agrees(s', x)
    {
      if x != e {
        assert Lookup(s'.store, x) == Lookup(s.store, x);
        assert Settled(s, x);
      }
    }
  }

  lemma AppendedOrder(s: State, s': State, e: Entity, ev: Event)
    requires Bounded(s) && Ordered(s) && Matching(s) && Appended(s, s', e, ev)
    ensures Ordered(s') && Matching(s') && GenerationOk(s')
  {
    forall i, j | Before(s', i, j) ensures InOrder(s', i, j) { assert j == s.nextId || Before(s, i, j); }
    forall x | x in s'.latest && s'.latest[x] in s'.events && x in s'.store
      ensures s'.events[s'.latest[x]].op.Upsert? && s'.events[s'.latest[x]].payload == s'.store[x]
    {
      if x != e { assert Lookup(s'.store, x) == Lookup(s.store, x); }
    }
  }

  lemma AppendedDeliveries(s: State, s': State, e: Entity, ev: Event)
    requires Bounded(s) && Deliveries(s) && Appended(s, s', e, ev)
    ensures Deliveries(s')
  {
    forall t | t in s'.tickets
      ensures FlightOk(s', t)
    {
      assert FlightOk(s, t);
      assert s.tickets[t].entity != e ==> Lookup(s'.store, s.tickets[t].entity) == Lookup(s.store, s.tickets[t].entity);
    }
    forall t | t in s'.tickets && Owns(s', t) ensures Owns(s, t) {}
  }

  lemma WriteKeeps(s: State, step: Step)
    requires Core(s) && (step.Write? || step.Reenqueue?)
    ensures Core(Apply(s, step))
  {
    WriteAppends(s, step);
    if Apply(s, step) != s {
      var ev :| Appended(s, Apply(s, step), step.entity, ev);
      AppendedBounded(s, Apply(s, step), step.entity, ev);
      AppendedTables(s, Apply(s, step), step.entity, ev);
      AppendedDeliveries(s, Apply(s, step), step.entity, ev);
    }
  }

  lemma LapseKeeps(s: State, e: Entity)
    requires Core(s)
    ensures Core(Apply(s, Lapse(e)))
  {
    LapseTables(s, e, Apply(s, Lapse(e)));
    LapseDeliveries(s, e, Apply(s, Lapse(e)));
  }

  lemma LapseTables(s: State, e: Entity, s': State)
    requires Tables(s) && s' == Apply(s, Lapse(e))
    ensures Tables(s')
  {
    hide Bounded, Coherent;
    SameOrder(s, s');
    LapseBounded(s, e, s');
    LapseCoherent(s, e, s');
  }

  lemma LapseBounded(s: State, e: Entity, s': State)
    requires Bounded(s) && s' == Apply(s, Lapse(e))
    ensures Bounded(s')
  {
    hide EraseRows, EraseServed, Targets, OfErased;
  }

  lemma LapseCoherent(s: State, e: Entity, s': State)
    requires Coherent(s) && s' == Apply(s, Lapse(e))
    ensures Coherent(s')
  {
    forall x: Entity | Settled(s', x) ensures Agrees(s', x) { assert Settled(s, x); }
  }

  lemma LapseDeliveries(s: State, e: Entity, s': State)
    requires Deliveries(s) && s' == Apply(s, Lapse(e))
    ensures Deliveries(s')
  {
    forall t | t in s'.tickets ensures FlightOk(s', t) { assert FlightOk(s, t); }
    forall t | t in s'.tickets && Owns(s', t) ensures Owns(s, t) {}
  }

  // ---- claims ----

  lemma ReclaimTables(s: State, now: int)
    requires Tables(s)
    ensures Tables(s.(events := Reclaimed(s.events, now)))
  {
    var r := s.(events := Reclaimed(s.events, now));
    hide Bounded, Ordered, Coherent;
    ReclaimBounded(s, now, r);
    ReclaimOrdered(s, now, r);
    ReclaimCoherent(s, now, r);
  }

  lemma ReclaimBounded(s: State, now: int, r: State)
    requires Bounded(s) && r == s.(events := Reclaimed(s.events, now))
    ensures Bounded(r)
  {
  }

  lemma ReclaimCoherent(s: State, now: int, r: State)
    requires Coherent(s) && r == s.(events := Reclaimed(s.events, now))
    ensures Coherent(r)
  {
    forall x: Entity | Settled(r, x) ensures Agrees(r, x) { assert Settled(s, x); }
  }

  lemma ReclaimOrdered(s: State, now: int, r: State)
    requires Ordered(s) && r == s.(events := Reclaimed(s.events, now))
    ensures Ordered(r)
  {
    forall i, j | Before(r, i, j) ensures InOrder(r, i, j) { assert Before(s, i, j); }
  }

  lemma ReclaimDeliveries(s: State, now: int)
    requires Deliveries(s) && !ReclaimBlocked(s, now)
    ensures Deliveries(s.(events := Reclaimed(s.events, now)))
  {
    var r := s.(events := Reclaimed(s.events, now));
    forall t | t in r.tickets
      ensures FlightOk(r, t)
    {
      assert FlightOk(s, t);
      if s.tickets[t].phase.Writing? {
        assert Locked(s, s.tickets[t].id);
      }
    }
    forall t | t in r.tickets && Owns(r, t) ensures Owns(s, t) {}
  }

  lemma ClaimRowOrdered(s: State, id: nat, now: int, until: int, ignoreSchedule: bool, c: State)
    requires Ordered(s) && Eligible(s.events, id, now, ignoreSchedule) && c == ClaimRow(s, id, until)
    ensures Ordered(c)
  {
    forall i, j | Before(c, i, j) ensures InOrder(c, i, j) { assert Before(s, i, j); }
  }

  lemma ClaimRowTables(s: State, id: nat, until: int, c: State)
    requires Tables(s) && id in s.events && s.events[id].status.Pending? && c == ClaimRow(s, id, until) && Ordered(c)
    ensures Tables(c)
  {
    hide Bounded, Coherent, Ordered;
    ClaimRowBounded(s, id, until, c);
    ClaimRowCoherent(s, id, until, c);
  }

  lemma ClaimRowBounded(s: State, id: nat, until: int, c: State)
    requires Bounded(s) && id in s.events && c == ClaimRow(s, id, until)
    ensures Bounded(c)
  {
  }

  lemma ClaimRowCoherent(s: State, id: nat, until: int, c: State)
    requires Coherent(s) && id in s.events && s.events[id].status.Pending? && c == ClaimRow(s, id, until)
    ensures Coherent(c)
  {
    forall x: Entity | Settled(c, x) ensures Agrees(c, x) { assert Settled(s, x); }
  }

  lemma ClaimRowDeliveries(s: State, id: nat, until: int, c: State)
    requires Bounded(s) && Deliveries(s) && id in s.events && s.events[id].status.Pending?
    requires c == ClaimRow(s, id, until)
    ensures Deliveries(c)
  {
    forall t | t in c.tickets
      ensures FlightOk(c, t)
    {
      if t in s.tickets { assert FlightOk(s, t); }
    }
    forall t | t in c.tickets && Owns(c, t) ensures t == s.nextToken || Owns(s, t) {}
  }

  lemma ClaimKeeps(s: State, step: Step)
    requires Core(s) && step.Claim?
    ensures Core(Apply(s, step))
  {
    var s' := Apply(s, step);
    if s' != s {
      var r := s.(events := Reclaimed(s.events, step.now));
      assert !ReclaimBlocked(s, step.now) && Claimable(r.events, step.now, step.ignoreSchedule, step.row);
      assert s' == if step.row.None? then r else ClaimRow(r, step.row.value, step.now + step.leaseSeconds);
      hide Tables, Deliveries, Apply, Reclaimed, ReclaimBlocked, ClaimRow, Eligible;
      ReclaimTables(s, step.now);
      ReclaimDeliveries(s, step.now);
      ClaimedKeeps(r, step, s');
    }
  }

  lemma ClaimedKeeps(r: State, step: Step, s': State)
    requires Core(r) && step.Claim?
    requires if step.row.None? then s' == r
             else Eligible(r.events, step.row.value, step.now, step.ignoreSchedule)
                  && s' == ClaimRow(r, step.row.value, step.now + step.leaseSeconds)
    ensures Core(s')
  {
    if step.row.Some? {
      ClaimRowOrdered(r, step.row.value, step.now, step.now + step.leaseSeconds, step.ignoreSchedule, s');
      ClaimRowTables(r, step.row.value, step.now + step.leaseSeconds, s');
      ClaimRowDeliveries(r, step.row.value, step.now + step.leaseSeconds, s');
    }
  }

  // ---- deliveries ----

  lemma TicketsOnly(s: State, s': State)
    requires Tables(s) && s' == s.(tickets := s'.tickets) && forall t :: t in s'.tickets ==> t in s.tickets
    ensures Tables(s')
  {
    hide Bounded, Coherent;
    TicketsBounded(s, s');
    SameOrder(s, s');
    SameCoherence(s, s');
  }

  lemma TicketsBounded(s: State, s': State)
    requires Bounded(s) && s' == s.(tickets := s'.tickets) && forall t :: t in s'.tickets ==> t in s.tickets
    ensures Bounded(s')
  {
  }

  lemma SameCoherence(s: State, s': State)
    requires Coherent(s) && s' == s.(tickets := s'.tickets)
    ensures Coherent(s')
  {
    forall x: Entity | Settled(s', x) ensures Agrees(s', x) { assert Settled(s, x); }
  }

  /** A step that changes only ticket `t`, not into a delivery that claims more than it may. */
  lemma TicketStep(s: State, s': State, t: nat)
    requires Core(s) && t in s.tickets && s' == s.(tickets := s'.tickets)
    requires s'.tickets - {t} == s.tickets - {t}
    requires t in s'.tickets ==> s'.tickets[t] == s.tickets[t].(phase := s'.tickets[t].phase) && FlightOk(s', t)
    ensures Core(s')
  {
    hide Tables;
    forall u | u in s'.tickets && u != t
      ensures u in s.tickets && s'.tickets[u] == s.tickets[u]
    {
      assert u in s'.tickets - {t};
    }
    TicketsOnly(s, s');
    forall u | u in s'.tickets
      ensures FlightOk(s', u)
    {
      if u != t { assert FlightOk(s, u); }
    }
    forall u | u in s'.tickets && Owns(s', u) ensures Owns(s, u) {}
  }

  lemma FenceKeeps(s: State, t: nat, now: int)
    requires Core(s)
    ensures Core(Apply(s, Fence(t, now)))
  {
    var s' := Apply(s, Fence(t, now));
    if s' != s {
      FenceFlight(s, s', t, now);
      hide Core, FlightOk, Apply;
      TicketStep(s, s', t);
    }
  }

  lemma FenceFlight(s: State, s': State, t: nat, now: int)
    requires Core(s) && s' == Apply(s, Fence(t, now)) && s' != s
    ensures t in s.tickets && s' == s.(tickets := s'.tickets) && s'.tickets - {t} == s.tickets - {t}
    ensures t in s'.tickets ==> s'.tickets[t] == s.tickets[t].(phase := s'.tickets[t].phase) && FlightOk(s', t)
  {
    FenceTickets(s, s', t, now);
    hide FenceRow;
    if t in s'.tickets && s'.tickets[t].phase.Writing? {
      hide Apply;
      FencedFlight(s, s', t);
    }
  }

  lemma FenceTickets(s: State, s': State, t: nat, now: int)
    requires s' == FenceRow(s, t, now) && s' != s
    ensures t in s.tickets && s'.tickets - {t} == s.tickets - {t}
    ensures t in s'.tickets ==> s'.tickets[t] == s.tickets[t].(phase := s'.tickets[t].phase)
    ensures t in s'.tickets && s'.tickets[t].phase.Writing? ==>
              s.gate.Open? && Owns(s, t)
              && s'.tickets[t].phase == Writing(Authoritative(s, s.tickets[t].entity, s.tickets[t].payload), false)
  {
    hide Owns, Authoritative;
  }

  lemma FencedFlight(s: State, s': State, t: nat)
    requires Bounded(s) && TicketsOk(s) && t in s.tickets && Owns(s, t) && s.gate.Open?
    requires s' == s.(tickets := s'.tickets) && t in s'.tickets && s'.tickets[t] == s.tickets[t].(phase := s'.tickets[t].phase)
    requires s'.tickets[t].phase == Writing(Authoritative(s, s.tickets[t].entity, s.tickets[t].payload), false)
    ensures FlightOk(s', t)
  {
  }

  lemma LandAgrees(s: State, t: nat)
    requires Core(s) && t in s.tickets && s.tickets[t].phase.Writing? && Newest(s, s.tickets[t].id)
    requires !Decide(s.tickets[t].op, s.tickets[t].payload, s.tickets[t].phase.current).Reject?
    ensures Agrees(Apply(s, Land(t)), s.tickets[t].entity)
  {
    assert FlightOk(s, t);
  }

  lemma LandTables(s: State, t: nat, s': State)
    requires Core(s) && s' == Apply(s, Land(t)) && s' != s
    ensures Tables(s')
  {
    assert FlightOk(s, t);
    OutstandingNotSettled(s, s.tickets[t].id);
    LandTouches(s, t, s');
    hide FlightsOk, TicketsOk, Apply, FlightOk;
    SameOrder(s, s');
    forall x: Entity | Settled(s', x)
      ensures Agrees(s', x)
    {
      assert Settled(s, x);
      assert x != s.tickets[t].entity;
    }
    LandBounded(s, t, s');
  }

  lemma LandTouches(s: State, t: nat, s': State)
    requires s' == Apply(s, Land(t)) && s' != s
    ensures t in s.tickets && s' == s.(tickets := s'.tickets, index := s'.index)
    ensures s'.tickets.Keys == s.tickets.Keys
    ensures forall e :: e != s.tickets[t].entity ==> Lookup(s'.index, e) == Lookup(s.index, e)
  {
  }

  lemma LandBounded(s: State, t: nat, s': State)
    requires Bounded(s) && s' == s.(tickets := s'.tickets, index := s'.index) && s'.tickets.Keys == s.tickets.Keys
    ensures Bounded(s')
  {
  }

  lemma LandDeliveries(s: State, t: nat, s': State)
    requires Core(s) && s' == Apply(s, Land(t)) && s' != s
    ensures Deliveries(s')
  {
    var k := s.tickets[t];
    assert FlightOk(s, t);
    forall u | u in s'.tickets
      ensures FlightOk(s', u)
    {
      assert FlightOk(s, u);
      if u == t {
        if Newest(s, k.id) { LandAgrees(s, t); }
      } else if s.tickets[u].phase.Writing? && s.tickets[u].entity == k.entity {
        ProcessingIsLowest(s, k.id, s.tickets[u].id);
      }
    }
    forall u | u in s'.tickets && Owns(s', u) ensures Owns(s, u) {}
  }

  lemma LandKeeps(s: State, t: nat)
    requires Core(s)
    ensures Core(Apply(s, Land(t)))
  {
    hide Tables, Deliveries, Apply;
    var s' := Apply(s, Land(t));
    if s' != s {
      LandTables(s, t, s');
      LandDeliveries(s, t, s');
    }
  }

  /** The worker of token `t` gives its row up in any of the three ways a row leaves processing. */
  predicate GivesUp(s: State, s': State, t: nat, ev: Event) {
    && Owns(s, t)
    && s' == s.(tickets := s.tickets - {t}, events := s.events[s.tickets[t].id := ev])
    && ev.entity == s.events[s.tickets[t].id].entity && ev.op == s.events[s.tickets[t].id].op
    && ev.payload == s.events[s.tickets[t].id].payload && ev.token.None? && !ev.status.Processing?
  }

  lemma GivesUpTables(s: State, s': State, t: nat, ev: Event)
    requires Tables(s) && GivesUp(s, s', t, ev)
    requires ev.status.Done? && Newest(s, s.tickets[t].id) ==> Agrees(s, ev.entity)
    ensures Tables(s')
  {
    hide Bounded, Coherent;
    GivesUpBounded(s, s', t, ev);
    GivesUpCoherent(s, s', t, ev);
    forall i, j | Before(s', i, j) ensures InOrder(s', i, j) { assert Before(s, i, j); }
  }

  lemma GivesUpBounded(s: State, s': State, t: nat, ev: Event)
    requires Bounded(s) && GivesUp(s, s', t, ev)
    ensures Bounded(s')
  {
  }

  lemma GivesUpCoherent(s: State, s': State, t: nat, ev: Event)
    requires Bounded(s) && Coherent(s) && GivesUp(s, s', t, ev)
    requires ev.status.Done? && Newest(s, s.tickets[t].id) ==> Agrees(s, ev.entity)
    ensures Coherent(s')
  {
    forall x: Entity | Settled(s', x)
      ensures Agrees(s', x)
    {
      if !(Newest(s, s.tickets[t].id) && ev.entity == x) {
        assert Settled(s, x);
      }
    }
  }

  lemma GivesUpDeliveries(s: State, s': State, t: nat, ev: Event)
    requires Deliveries(s) && GivesUp(s, s', t, ev)
    ensures Deliveries(s')
  {
    forall u | u in s'.tickets ensures FlightOk(s', u) { assert FlightOk(s, u); }
    forall u | u in s'.tickets && Owns(s', u) ensures Owns(s, u) {}
  }

  predicate Delivers(step: Step) {
    step.Commit? || step.Rollback? || step.MarkFailed? || step.MarkYielded? || step.Crash?
  }

  lemma RowReturnedKeeps(s: State, step: Step)
    requires Core(s) && (step.Commit? || step.MarkFailed? || step.MarkYielded?)
    requires Owns(s, step.token) && Apply(s, step) != s
    ensures Core(Apply(s, step))
  {
    var t, s' := step.token, Apply(s, step);
    var ev := s'.events[s.tickets[t].id];
    RowGivenUp(s, step, s', ev);
    assert FlightOk(s, t);
    assert s.tickets[t].phase.Writing? && Newest(s, s.tickets[t].id) && s.tickets[t].phase.landed ==> Agrees(s, ev.entity);
    hide Apply, Tables, Deliveries;
    GivesUpTables(s, s', t, ev);
    GivesUpDeliveries(s, s', t, ev);
  }

  lemma RowGivenUp(s: State, step: Step, s': State, ev: Event)
    requires (step.Commit? || step.MarkFailed? || step.MarkYielded?) && Owns(s, step.token)
    requires s' == Apply(s, step) && s' != s && s.tickets[step.token].id in s'.events && ev == s'.events[s.tickets[step.token].id]
    ensures GivesUp(s, s', step.token, ev)
    ensures ev.status.Done? ==> s.tickets[step.token].phase.Writing? && s.tickets[step.token].phase.landed
  {
  }

  lemma TicketDroppedKeeps(s: State, step: Step)
    requires Core(s) && Delivers(step) && Apply(s, step) != s
    requires step.Rollback? || step.Crash? || !Owns(s, step.token)
    ensures Core(Apply(s, step))
  {
    var s' := Apply(s, step);
    assert s'.tickets - {step.token} == s.tickets - {step.token};
    TicketStep(s, s', step.token);
  }

  // ---- maintenance ----

  predicate Maintains(step: Step) {
    step.BeginRebuild? || step.Validate? || step.Activate? || step.BeginErase? || step.EndMaintenance?
    || step.EraseIndex? || step.EraseStore?
  }

  lemma GateTables(s: State, step: Step)
    requires Tables(s) && (step.BeginRebuild? || step.Validate? || step.BeginErase? || step.EndMaintenance?)
    ensures Tables(Apply(s, step))
  {
    GateOnly(s, Apply(s, step));
  }

  lemma GateOnly(s: State, s': State)
    requires Tables(s) && s' == s.(gate := s'.gate) && GenerationOk(s')
    ensures Tables(s')
  {
    forall x: Entity | Settled(s', x) ensures Agrees(s', x) { assert Settled(s, x); }
    forall i, j | Before(s', i, j) ensures InOrder(s', i, j) { assert Before(s, i, j); }
  }

  lemma SameOrder(s: State, s': State)
    requires Ordered(s) && s'.events == s.events
    ensures Ordered(s')
  {
    forall i, j | Before(s', i, j) ensures InOrder(s', i, j) { assert Before(s, i, j); }
  }

  lemma ActivateTables(s: State, s': State)
    requires Tables(s) && s' == Apply(s, Activate)
    ensures Tables(s')
  {
    hide Bounded, Coherent, Ordered;
    SameOrder(s, s');
    ActivateBounded(s, s');
    ActivateCoherent(s, s');
  }

  lemma ActivateBounded(s: State, s': State)
    requires Bounded(s) && s' == Apply(s, Activate)
    ensures Bounded(s')
  {
  }

  lemma ActivateCoherent(s: State, s': State)
    requires Bounded(s) && GenerationOk(s) && Coherent(s) && s' == Apply(s, Activate)
    ensures Coherent(s')
  {
    forall x: Entity | Settled(s', x) ensures Agrees(s', x) { assert Settled(s, x); }
  }

  /** The removal takes no live point that is up to date, and what it misses is stranded. */
  lemma EraseIndexAgrees(s: State, owner: Owner, e: Entity)
    requires Bounded(s) && ErasureOk(s) && owner in s.owners && Agrees(s, e)
    ensures Agrees(EraseServed(s, owner), e)
  {
  }

  lemma EraseIndexTables(s: State, owner: Owner, s': State)
    requires Tables(s) && ErasureOk(s) && owner in s.owners && s' == EraseServed(s, owner)
    ensures Tables(s')
  {
    SameOrder(s, s');
    EraseIndexBounded(s, owner, s');
    hide Bounded, ErasureOk;
    forall x: Entity | Settled(s', x)
      ensures Agrees(s', x)
    {
      assert Settled(s, x);
      EraseIndexAgrees(s, owner, x);
    }
  }

  lemma EraseIndexBounded(s: State, owner: Owner, s': State)
    requires Bounded(s) && s' == EraseServed(s, owner)
    ensures Bounded(s')
  {
  }

  lemma EraseStoreTables(s: State, owner: Owner, targets: set<Entity>, s': State)
    requires Tables(s) && s' == EraseRows(s, owner, targets) && s.gate.Erasing?
    ensures Tables(s')
  {
    hide Bounded, Coherent;
    EraseStoreBounded(s, owner, targets, s');
    EraseStoreCoherent(s, owner, targets, s');
    forall i, j | Before(s', i, j) ensures InOrder(s', i, j) { assert Before(s, i, j); }
  }

  lemma EraseStoreBounded(s: State, owner: Owner, targets: set<Entity>, s': State)
    requires Bounded(s) && s' == EraseRows(s, owner, targets)
    ensures Bounded(s')
  {
  }

  lemma EraseStoreCoherent(s: State, owner: Owner, targets: set<Entity>, s': State)
    requires Bounded(s) && Coherent(s) && s' == EraseRows(s, owner, targets)
    ensures Coherent(s')
  {
    forall x: Entity | Settled(s', x) ensures Agrees(s', x) { assert x in targets || Settled(s, x); }
  }

  /** While the gate is not open no delivery is past its fence, and none starts. */
  lemma MaintenanceDeliveries(s: State, step: Step)
    requires Bounded(s) && Deliveries(s) && Maintains(step)
    ensures Deliveries(Apply(s, step))
  {
    MaintenanceFlights(s, step, Apply(s, step));
    MaintenanceTickets(s, step, Apply(s, step));
  }

  lemma MaintenanceFlights(s: State, step: Step, s': State)
    requires FlightsOk(s) && Maintains(step) && s' == Apply(s, step)
    ensures FlightsOk(s')
  {
    forall t | t in s'.tickets ensures FlightOk(s', t) { assert FlightOk(s, t); }
  }

  lemma MaintenanceTickets(s: State, step: Step, s': State)
    requires TicketsOk(s) && Maintains(step) && s' == Apply(s, step)
    ensures TicketsOk(s')
  {
    forall t | t in s'.tickets && Owns(s', t) ensures Owns(s, t) {}
  }

  lemma MaintenanceKeeps(s: State, step: Step)
    requires Inv(s) && Maintains(step)
    ensures Core(Apply(s, step))
  {
    var s' := Apply(s, step);
    MaintenanceDeliveries(s, step);
    if s' != s {
      match step
      case EraseStore(owner, dead) => EraseStoreTables(s, owner, Targets(s, owner, dead), s');
      case EraseIndex(owner) => EraseIndexTables(s, owner, s');
      case Activate => ActivateTables(s, s');
      case _ => GateTables(s, step);
    }
  }

  lemma DeliveryKeeps(s: State, step: Step)
    requires Core(s) && Delivers(step)
    ensures Core(Apply(s, step))
  {
    if Apply(s, step) != s {
      if step.Rollback? || step.Crash? || !Owns(s, step.token) {
        TicketDroppedKeeps(s, step);
      } else {
        RowReturnedKeeps(s, step);
      }
    }
  }

  lemma CoreStep(s: State, step: Step)
    requires Inv(s)
    ensures Core(Apply(s, step))
  {
    match step
    case Write(_, _, _, _, _) => WriteKeeps(s, step);
    case Reenqueue(_, _) => WriteKeeps(s, step);
    case Lapse(e) => LapseKeeps(s, e);
    case Claim(_, _, _, _) => ClaimKeeps(s, step);
    case Fence(t, now) => FenceKeeps(s, t, now);
    case Land(t) => LandKeeps(s, t);
    case _ =>
      if Maintains(step) {
        MaintenanceKeeps(s, step);
      } else {
        DeliveryKeeps(s, step);
      }
  }

  /** No step but a removal or a swap touches the point of an erased entity. */
  lemma ErasedPointStays(s: State, step: Step, e: Entity)
    requires Core(s) && e in s.erased && !step.Activate? && !step.EraseIndex?
    ensures Lookup(Apply(s, step).index, e) == Lookup(s.index, e)
  {
    hide EraseServed, Targets, OfErased, Coherent, Ordered, Matching, GenerationOk, TicketsOk;
    if step.Land? && step.token in s.tickets {
      assert FlightOk(s, step.token);
    }
  }

  lemma ErasureStep(s: State, step: Step)
    requires Inv(s)
    ensures ErasureOk(Apply(s, step))
  {
    match step
    case Write(_, _, _, _, _) => WriteErasure(s, step, Apply(s, step));
    case Activate => ActivateErasure(s, Apply(s, step));
    case EraseIndex(owner) => if Apply(s, step) != s { EraseIndexErasure(s, owner); }
    case EraseStore(owner, dead) => if Apply(s, step) != s { EraseStoreErasure(s, owner, dead); }
    case _ =>
      OtherErasure(s, step, Apply(s, step));
      forall e | e in s.stranded
        ensures e in Apply(s, step).index
      {
        ErasedPointStays(s, step, e);
      }
  }

  lemma WriteErasure(s: State, step: Step, s': State)
    requires ErasureOk(s) && step.Write? && s' == Apply(s, step)
    ensures ErasureOk(s')
  {
    hide Selected;
  }

  lemma ActivateErasure(s: State, s': State)
    requires ErasureOk(s) && s' == Apply(s, Activate)
    ensures ErasureOk(s')
  {
    hide Selected;
  }

  lemma EraseIndexErasure(s: State, owner: Owner)
    requires ErasureOk(s)
    ensures ErasureOk(EraseServed(s, owner))
  {
    hide Selected;
  }

  lemma EraseStoreErasure(s: State, owner: Owner, dead: set<Entity>)
    requires ErasureOk(s)
    ensures ErasureOk(EraseRows(s, owner, Targets(s, owner, dead)))
  {
    hide Selected;
  }

  lemma OtherErasure(s: State, step: Step, s': State)
    requires ErasureOk(s) && s' == Apply(s, step)
    requires !TouchesErased(step)
    ensures s'.stranded == s.stranded
    ensures s'.stranded <= s'.index.Keys ==> ErasureOk(s')
  {
    OwedSame(s, step);
    StoreShrinks(s, step, s');
    hide Apply, Selected;
  }

  predicate TouchesErased(step: Step) {
    step.Write? || step.Activate? || step.EraseIndex? || step.EraseStore?
  }

  lemma OwedSame(s: State, step: Step)
    requires !TouchesErased(step)
    ensures Apply(s, step).stranded == s.stranded && Apply(s, step).cleanup == s.cleanup && Apply(s, step).owners == s.owners
  {
    hide Mutate, EnqueueAgain, Expire, ClaimOne, FenceRow, LandPoint, MarkDone, RollBack, PutBack, ReturnRow, StartRebuild,
      ValidateGeneration, SwapIn, StartErase, EraseRows, EraseServed, Targets;
  }

  lemma StoreShrinks(s: State, step: Step, s': State)
    requires s' == Apply(s, step) && !step.Write? && !step.EraseStore?
    ensures forall e :: e in s'.store ==> e in s.store && s'.store[e] == s.store[e]
  {
    hide Mutate, EnqueueAgain, ClaimOne, FenceRow, LandPoint, MarkDone, RollBack, PutBack, ReturnRow, StartRebuild,
      ValidateGeneration, SwapIn, StartErase, EraseRows, EraseServed, Targets;
    if !step.Lapse? { assert s'.store == s.store; }
  }

  lemma StepKeeps(s: State, step: Step)
    requires Inv(s)
    ensures Inv(Apply(s, step))
  {
    CoreStep(s, step);
    ErasureStep(s, step);
  }

  lemma {:induction false} RunKeeps(s: State, steps: seq<Step>)
    requires Inv(s)
    ensures Inv(Run(s, steps))
    decreases |steps|
  {
    if steps != [] {
      StepKeeps(s, steps[0]);
      RunKeeps(Apply(s, steps[0]), steps[1..]);
    }
  }

  lemma Reachable(steps: seq<Step>)
    ensures Inv(Run(Initial, steps))
  {
    RunKeeps(Initial, steps);
  }

  // ---- main results ----

  /** In every reachable state: index and store agree on an entity unless its newest event is still outstanding or
      failed, or the clock expired it, or it was erased and its removal is owed or missed it. */
  lemma IndexCoherence(steps: seq<Step>, e: Entity)
    ensures var s := Run(Initial, steps);
            || Lookup(s.index, e) == Lookup(s.store, e)
            || (e in s.latest && s.latest[e] in s.events && !s.events[s.latest[e]].status.Done?)
            || (e in s.lapsed && e !in s.store)
            || (e in s.cleanup && e in s.erased && e !in s.store)
            || (e in s.stranded && e in s.erased && e in s.index)
  {
    var s := Run(Initial, steps);
    Reachable(steps);
    assert Settled(s, e) ==> Agrees(s, e);
  }

  /** Nothing pending means parity, exactly when no expired point and no erased point, owed or stranded, is still served. */
  lemma DrainedParity(steps: seq<Step>)
    requires PendingCount(Run(Initial, steps)) == 0
    ensures var s := Run(Initial, steps);
            s.index == s.store <==> s.stranded == {} && forall e :: e in s.lapsed + s.cleanup.Keys ==> e !in s.index
    ensures var s := Run(Initial, steps);
            forall e :: e in s.store ==> e in s.index && s.index[e] == s.store[e]
  {
    Reachable(steps);
    Parity(Run(Initial, steps));
  }

  lemma Parity(s: State)
    requires Inv(s) && PendingCount(s) == 0
    ensures s.index == s.store <==> s.stranded == {} && forall e :: e in s.lapsed + s.cleanup.Keys ==> e !in s.index
    ensures forall e :: e in s.store ==> e in s.index && s.index[e] == s.store[e]
  {
    NothingPending(s);
    forall e: Entity
      ensures Agrees(s, e)
    {
      assert Settled(s, e);
    }
    forall e | e in s.store
      ensures e in s.index && s.index[e] == s.store[e]
    {
      assert Agrees(s, e);
    }
    if s.stranded == {} && forall e :: e in s.lapsed + s.cleanup.Keys ==> e !in s.index {
      forall e | e in s.index
        ensures e in s.store
      {
        assert Agrees(s, e);
      }
    }
    if s.index == s.store {
      StrandedServed(s);
    }
  }

  lemma StrandedServed(s: State)
    requires Inv(s) && s.index == s.store
    ensures s.stranded == {}
  {
    assert s.stranded <= s.erased * s.store.Keys == {};
  }

  lemma NothingPending(s: State)
    requires PendingCount(s) == 0
    ensures forall id :: id in s.events ==> s.events[id].status.Done?
  {
    forall id | id in s.events ensures s.events[id].status.Done? { assert id !in NotDone(s.events); }
  }

  lemma {:induction false} GoneStaysGone(s: State, steps: seq<Step>, e: Entity)
    requires Inv(s) && e in s.erased && e !in s.index
    ensures e in Run(s, steps).erased && e !in Run(s, steps).index && e !in Run(s, steps).store
    decreases |steps|
  {
    if steps != [] {
      StepKeeps(s, steps[0]);
      GoneStep(s, steps[0], e);
      hide Inv, Apply;
      GoneStaysGone(Apply(s, steps[0]), steps[1..], e);
    } else {
      hide Core;
      ErasedNotStored(s, e);
    }
  }

  lemma ErasedNotStored(s: State, e: Entity)
    requires Inv(s) && e in s.erased
    ensures e !in s.store
  {
  }

  lemma GoneStep(s: State, step: Step, e: Entity)
    requires Inv(s) && e in s.erased && e !in s.index
    ensures e in Apply(s, step).erased && e !in Apply(s, step).index
  {
    if !step.Activate? && !step.EraseIndex? {
      ErasedPointStays(s, step, e);
    }
  }

  /** An erased point that is gone stays gone: no late delivery, rebuild or other erasure brings it back. */
  lemma ErasedStaysGone(prefix: seq<Step>, steps: seq<Step>, e: Entity)
    requires e in Run(Initial, prefix).erased && e !in Run(Initial, prefix).index
    ensures e !in Run(Run(Initial, prefix), steps).index && e !in Run(Run(Initial, prefix), steps).store
  {
    Reachable(prefix);
    GoneStaysGone(Run(Initial, prefix), steps, e);
  }

  /** Of what was erased and is not owed, exactly the stranded points are served. */
  lemma ServedAfterErasure(steps: seq<Step>, e: Entity)
    requires var s := Run(Initial, steps); e in s.erased && e !in s.cleanup
    ensures var s := Run(Initial, steps); e !in s.store && (e in s.index <==> e in s.stranded)
  {
    Reachable(steps);
    var s := Run(Initial, steps);
    assert e !in s.latest;
    assert Settled(s, e);
    assert Agrees(s, e);
  }

  predicate LeavesErased(step: Step) {
    !step.Activate? && !step.EraseIndex?
  }

  lemma OwnersGrow(s: State, step: Step)
    ensures s.owners <= Apply(s, step).owners && s.erased <= Apply(s, step).erased
  {
    hide Mutate, EnqueueAgain, Expire, ClaimOne, FenceRow, LandPoint, MarkDone, RollBack, PutBack, ReturnRow, StartRebuild,
      ValidateGeneration, SwapIn, StartErase, EraseRows, EraseServed, Targets;
  }

  lemma {:induction false} ErasedPointsStay(s: State, steps: seq<Step>, e: Entity)
    requires Inv(s) && e in s.erased && forall step :: step in steps ==> LeavesErased(step)
    ensures Lookup(Run(s, steps).index, e) == Lookup(s.index, e) && e in Run(s, steps).erased
    ensures s.owners <= Run(s, steps).owners && Inv(Run(s, steps))
    decreases |steps|
  {
    hide Inv, Apply, Lookup;
    if steps != [] {
      assert steps[0] in steps && forall step :: step in steps[1..] ==> step in steps;
      assert LeavesErased(steps[0]);
      StepKeeps(s, steps[0]);
      OwnersGrow(s, steps[0]);
      OneStays(s, steps[0], e);
      ErasedPointsStay(Apply(s, steps[0]), steps[1..], e);
    }
  }

  lemma OneStays(s: State, step: Step, e: Entity)
    requires Inv(s) && e in s.erased && LeavesErased(step)
    ensures Lookup(Apply(s, step).index, e) == Lookup(s.index, e)
  {
    ErasedPointStays(s, step, e);
  }

  lemma RemovalFate(s: State, owner: Owner, e: Entity)
    requires s.gate.Erasing? && owner in s.owners
    ensures var f := Apply(s, EraseIndex(owner));
            && (e in f.index <==> e in s.index && !Selected(e, s.index[e], owner))
            && (e in f.index ==> f.index[e] == s.index[e])
  {
    hide Selected;
  }

  lemma ErasedRows(s: State, owner: Owner, dead: set<Entity>, e: Entity)
    requires s.gate.Erasing?
    ensures var t := Apply(s, EraseStore(owner, dead));
            t.index == s.index && owner in t.owners && (e in s.store && Selected(e, s.store[e], owner) ==> e in t.erased)
  {
    hide Selected;
  }

  /** The fate of a point whose row an erasure deletes, however long the removal is put off: it survives the removal
      exactly if it was served and what it served is not what the removal selects. */
  lemma ErasedPointFate(prefix: seq<Step>, owner: Owner, dead: set<Entity>, between: seq<Step>, e: Entity)
    requires var s := Run(Initial, prefix);
             s.gate.Erasing? && e !in s.erased && e in Apply(s, EraseStore(owner, dead)).erased
    requires forall step :: step in between ==> LeavesErased(step)
    requires Run(Apply(Run(Initial, prefix), EraseStore(owner, dead)), between).gate.Erasing?
    ensures var s := Run(Initial, prefix);
            var f := Apply(Run(Apply(s, EraseStore(owner, dead)), between), EraseIndex(owner));
            && (e in f.index <==> e in s.index && !Selected(e, s.index[e], owner))
            && (e in f.index ==> f.index[e] == s.index[e])
  {
    hide *;
    var s := Run(Initial, prefix);
    Reachable(prefix);
    StepKeeps(s, EraseStore(owner, dead));
    var t := Apply(s, EraseStore(owner, dead));
    ErasedRows(s, owner, dead, e);
    ErasedPointsStay(t, between, e);
    RemovalFate(Run(t, between), owner, e);
    LookupSame(Run(t, between).index, s.index, e);
  }

  lemma LookupSame(m: map<Entity, Payload>, n: map<Entity, Payload>, e: Entity)
    requires Lookup(m, e) == Lookup(n, e)
    ensures (e in m <==> e in n) && (e in m ==> m[e] == n[e])
  {
  }

  /** So the removal reaches every live point that had been delivered when its row was deleted. */
  lemma DeliveredIsErased(prefix: seq<Step>, owner: Owner, dead: set<Entity>, between: seq<Step>, e: Entity)
    requires var s := Run(Initial, prefix);
             s.gate.Erasing? && Settled(s, e) && e in s.store && Selected(e, s.store[e], owner)
    requires forall step :: step in between ==> LeavesErased(step)
    requires Run(Apply(Run(Initial, prefix), EraseStore(owner, dead)), between).gate.Erasing?
    ensures var f := Apply(Run(Apply(Run(Initial, prefix), EraseStore(owner, dead)), between), EraseIndex(owner));
            e !in f.index && e !in f.store && e in f.erased
  {
    hide *;
    var s := Run(Initial, prefix);
    Reachable(prefix);
    UpToDate(s, e);
    ErasedRows(s, owner, dead, e);
    var t := Apply(s, EraseStore(owner, dead));
    ErasedPointFate(prefix, owner, dead, between, e);
    StepKeeps(s, EraseStore(owner, dead));
    ErasedPointsStay(t, between, e);
    StepKeeps(Run(t, between), EraseIndex(owner));
    OwnersGrow(Run(t, between), EraseIndex(owner));
    ErasedNotStored(Apply(Run(t, between), EraseIndex(owner)), e);
  }

  lemma UpToDate(s: State, e: Entity)
    requires Inv(s) && Settled(s, e) && e in s.store
    ensures e !in s.erased && e in s.index && s.index[e] == s.store[e]
  {
    assert Agrees(s, e);
  }

  /** In every reachable state at most one event of an entity is processing, and every earlier one has left. */
  lemma DeliveryOrder(steps: seq<Step>, id: nat, j: nat)
    requires var s := Run(Initial, steps);
             id in s.events && j in s.events && s.events[id].entity == s.events[j].entity && j < id
    ensures var s := Run(Initial, steps);
            !s.events[id].status.Pending? ==> !Outstanding(s.events[j].status)
  {
    Reachable(steps);
    assert Before(Run(Initial, steps), j, id);
  }

  /** A delivery goes through its phases in order: a step that is not next, or whose call raises, changes nothing. */
  lemma PhasesInOrder(s: State, t: nat, now: int, maxAttempts: nat)
    ensures !(t in s.tickets && s.tickets[t].phase.Held?) ==> Apply(s, Fence(t, now)) == s
    ensures !(t in s.tickets && s.tickets[t].phase.Writing?) ==>
              Apply(s, Land(t)) == s && Apply(s, Commit(t)) == s && Apply(s, Rollback(t)) == s
    ensures !(t in s.tickets && s.tickets[t].phase.Failing?) ==> Apply(s, MarkFailed(t, now, maxAttempts)) == s
    ensures !(t in s.tickets && s.tickets[t].phase.Yielding?) ==> Apply(s, MarkYielded(t)) == s
    ensures t in s.tickets && s.tickets[t].phase.Writing? && !s.tickets[t].phase.landed ==> Apply(s, Commit(t)) == s
    ensures t in s.tickets && s.tickets[t].phase.Writing? && s.tickets[t].phase.current.Some?
            && s.tickets[t].op.Upsert? && s.tickets[t].payload.text == ""
            ==> Apply(s, Land(t)) == s
  {
  }

  // ---- failures ----

  function Power(n: nat): nat {
    if n == 0 then 1 else 2 * Power(n - 1)
  }

  function Smaller(a: nat, b: nat): nat {
    if a < b then a else b
  }

  /** A row put back by a failed attempt: one attempt more, no lease, given up on exactly at the last attempt, and due
      again after min(300, 2 ** min(attempts, 8)) seconds. */
  predicate Retried(before: Event, after: Event, now: int, maxAttempts: nat) {
    && after.entity == before.entity && after.op == before.op && after.payload == before.payload
    && after.attempts == before.attempts + 1 && after.token.None? && after.lease == 0
    && (if before.attempts + 1 >= maxAttempts then after.status.Failed? else after.status.Pending?)
    && after.availableAt == now + Smaller(300, Power(Smaller(before.attempts + 1, 8)))
  }

  lemma {:induction false} BackoffIsPower(attempts: nat)
    ensures Backoff(attempts) == Power(Smaller(attempts, 8))
  {
    if 0 < attempts < 8 {
      BackoffIsPower(attempts - 1);
    } else if attempts >= 8 {
      assert Power(0) == 1 && Power(1) == 2 && Power(2) == 4 && Power(3) == 8 && Power(4) == 16;
      assert Power(5) == 32 && Power(6) == 64 && Power(7) == 128 && Power(8) == 256;
    }
  }

  lemma FailedIsRetried(ev: Event, now: int, maxAttempts: nat)
    ensures Retried(ev, FailedRow(ev, ev.attempts + 1, now, maxAttempts), now, maxAttempts)
  {
    BackoffIsPower(ev.attempts + 1);
    hide Backoff, Power;
  }

  /** A leased row whose attempt raised, before or after the index was written, is put back, and no other row changes. */
  lemma FailedAttempt(s: State, t: nat, now: int, maxAttempts: nat)
    requires Inv(s) && t in s.tickets && s.tickets[t].phase.Writing?
    ensures var s' := Apply(Apply(s, Rollback(t)), MarkFailed(t, now, maxAttempts));
            var id := s.tickets[t].id;
            && id in s.events && s.events[id].status.Processing? && s.events[id].token == Some(t) && id in s'.events
            && Retried(s.events[id], s'.events[id], now, maxAttempts)
            && s'.events == s.events[id := s'.events[id]] && t !in s'.tickets
            && s'.index == s.index && s'.store == s.store
  {
    var id := s.tickets[t].id;
    assert FlightOk(s, t);
    assert Owns(s, t) && s.tickets[t].attempts == s.events[id].attempts;
    FailedIsRetried(s.events[id], now, maxAttempts);
    hide FailedRow, Retried, Inv;
  }

  predicate SameLimit(steps: seq<Step>, maxAttempts: nat) {
    forall i | 0 <= i < |steps| :: steps[i].MarkFailed? ==> steps[i].maxAttempts == maxAttempts
  }

  /** Whether this step records a failed attempt of this event. */
  predicate RecordsFailure(s: State, step: Step, id: nat) {
    && step.MarkFailed? && step.token in s.tickets && s.tickets[step.token].phase.Failing?
    && Owns(s, step.token) && s.tickets[step.token].id == id
  }

  function Failures(s: State, steps: seq<Step>, id: nat): nat
    decreases |steps|
  {
    if steps == [] then 0
    else (if RecordsFailure(s, steps[0], id) then 1 else 0) + Failures(Apply(s, steps[0]), steps[1..], id)
  }

  /** How often a row may fail: once at least. */
  function Tries(maxAttempts: nat): nat {
    if maxAttempts == 0 then 1 else maxAttempts
  }

  /** A row that has failed as often as it may is given up on, and no other is. */
  predicate TriesOk(ev: Event, maxAttempts: nat) {
    if ev.status.Failed? then ev.attempts == Tries(maxAttempts) else ev.attempts < Tries(maxAttempts)
  }

  /** No other step counts an attempt or gives a row up. */
  lemma TriesStay(s: State, step: Step, id: nat)
    requires id < s.nextId && id in s.events && !RecordsFailure(s, step, id)
    ensures id in Apply(s, step).events ==>
              && Apply(s, step).events[id].attempts == s.events[id].attempts
              && Apply(s, step).events[id].status.Failed? == s.events[id].status.Failed?
    ensures id !in Apply(s, step).events ==> step.EraseStore?
  {
    hide ReclaimBlocked, Decide, Touch, Authoritative, RetryDelay, Selected, OfErased, Targets, EraseServed;
  }

  lemma TriesFailure(s: State, step: Step, id: nat)
    requires Inv(s) && RecordsFailure(s, step, id)
    ensures id in s.events && Apply(s, step).events.Keys == s.events.Keys
    ensures Retried(s.events[id], Apply(s, step).events[id], step.now, step.maxAttempts)
  {
    assert s.tickets[step.token].attempts == s.events[id].attempts;
    FailedIsRetried(s.events[id], step.now, step.maxAttempts);
    hide Retried, FailedRow, Inv;
  }

  lemma TriesStep(s: State, step: Step, id: nat, maxAttempts: nat)
    requires Inv(s) && id in s.events && TriesOk(s.events[id], maxAttempts)
    requires step.MarkFailed? ==> step.maxAttempts == maxAttempts
    ensures id in Apply(s, step).events ==>
              && TriesOk(Apply(s, step).events[id], maxAttempts)
              && Apply(s, step).events[id].attempts
                 == s.events[id].attempts + if RecordsFailure(s, step, id) then 1 else 0
  {
    if RecordsFailure(s, step, id) {
      TriesFailure(s, step, id);
      assert !s.events[id].status.Failed? by { assert Owns(s, step.token); }
    } else {
      TriesStay(s, step, id);
    }
    hide Apply, RecordsFailure, Inv, Power;
  }

  lemma NewTries(s: State, step: Step, id: nat)
    requires Bounded(s) && id !in s.events && id in Apply(s, step).events
    ensures Apply(s, step).events[id].attempts == 0 && Apply(s, step).events[id].status.Pending?
    ensures id == s.nextId && !RecordsFailure(s, step, id)
  {
    hide ReclaimBlocked, Decide, Touch, Authoritative, RetryDelay, Selected, OfErased, Targets, EraseServed;
  }

  lemma {:induction false} TriesRun(s: State, steps: seq<Step>, id: nat, maxAttempts: nat)
    requires Inv(s) && SameLimit(steps, maxAttempts) && id in Run(s, steps).events
    requires id in s.events ==> TriesOk(s.events[id], maxAttempts)
    ensures TriesOk(Run(s, steps).events[id], maxAttempts)
    ensures Run(s, steps).events[id].attempts == (if id in s.events then s.events[id].attempts else 0) + Failures(s, steps, id)
    decreases |steps|
  {
    if steps != [] {
      var s' := Apply(s, steps[0]);
      StepKeeps(s, steps[0]);
      assert forall i | 0 <= i < |steps[1..]| :: steps[1..][i] == steps[i + 1];
      if id in s.events {
        TriesStep(s, steps[0], id, maxAttempts);
        if id !in s'.events {
          GoneEvent(s, steps[0], steps[1..], id);
        }
      } else if id in s'.events {
        NewTries(s, steps[0], id);
      } else {
        NotRecorded(s, steps[0], id);
      }
      hide Inv, Apply, RecordsFailure;
      TriesRun(s', steps[1..], id, maxAttempts);
    }
  }

  lemma NotRecorded(s: State, step: Step, id: nat)
    requires id !in s.events
    ensures !RecordsFailure(s, step, id)
  {
  }

  /** An erased event is never there again. */
  lemma GoneEvent(s: State, step: Step, steps: seq<Step>, id: nat)
    requires Inv(s) && id in s.events && id !in Apply(s, step).events
    ensures id !in Run(Apply(s, step), steps).events
  {
    StepKeeps(s, step);
    assert id < s.nextId <= Apply(s, step).nextId by { NextIdGrows(s, step); }
    hide Inv;
    IdsNotReused(Apply(s, step), steps, id);
  }

  lemma NextIdGrows(s: State, step: Step)
    ensures s.nextId <= Apply(s, step).nextId
  {
    hide Claimable, ReclaimBlocked, Decide, Touch, Authoritative, RetryDelay, Selected, OfErased, Targets, Reclaimed;
  }

  lemma {:induction false} IdsNotReused(s: State, steps: seq<Step>, id: nat)
    requires Inv(s) && id !in s.events && id < s.nextId
    ensures id !in Run(s, steps).events
    decreases |steps|
  {
    if steps != [] {
      StepKeeps(s, steps[0]);
      NextIdGrows(s, steps[0]);
      if id in Apply(s, steps[0]).events {
        NewTries(s, steps[0], id);
      }
      hide Inv, Apply;
      IdsNotReused(Apply(s, steps[0]), steps[1..], id);
    }
  }

  /** In every run under one attempt limit, an event has as many attempts as failures of it were recorded, and it is given
      up on exactly when they are as many as the limit, or one: until then it is retried. */
  lemma GivenUpExactly(steps: seq<Step>, id: nat, maxAttempts: nat)
    requires SameLimit(steps, maxAttempts) && id in Run(Initial, steps).events
    ensures var ev := Run(Initial, steps).events[id];
            && ev.attempts == Failures(Initial, steps, id) <= Tries(maxAttempts)
            && (ev.status.Failed? <==> ev.attempts == Tries(maxAttempts))
  {
    TriesRun(Initial, steps, id, maxAttempts);
  }

  /** The retry delay doubles from attempt to attempt up to the eighth and stays at 256 seconds: the 300 second cap is
      never reached. */
  lemma RetryDelayDoubles(attempts: nat)
    ensures attempts < 8 ==> RetryDelay(attempts + 1) == 2 * RetryDelay(attempts)
    ensures attempts >= 8 ==> RetryDelay(attempts) == 256
    ensures 1 <= RetryDelay(attempts) <= 256
  {
    assert Backoff(0) == 1 && Backoff(1) == 2 && Backoff(2) == 4 && Backoff(3) == 8;
    assert Backoff(4) == 16 && Backoff(5) == 32 && Backoff(6) == 64 && Backoff(7) == 128;
  }

  // ---- rebuilds ----

  predicate Frozen(step: Step) {
    !step.EndMaintenance? && !step.Activate? && !step.Validate?
  }

  /** While a rebuild holds the gate, only the clock can change what the index should hold, and nothing
      changes what it does hold. */
  lemma FrozenStep(s: State, step: Step)
    requires FlightsOk(s) && s.gate.Rebuilding? && Frozen(step)
    ensures Apply(s, step).gate == s.gate && Apply(s, step).index == s.index
    ensures Apply(s, step).store == if step.Lapse? then s.store - {step.entity} else s.store
  {
    if step.Land? && step.token in s.tickets {
      assert FlightOk(s, step.token);
    }
  }

  lemma {:induction false} FrozenRun(s: State, steps: seq<Step>)
    requires Inv(s) && s.gate.Rebuilding?
    requires forall step :: step in steps ==> Frozen(step)
    ensures Run(s, steps).gate == s.gate && Run(s, steps).index == s.index
    ensures forall e :: e in Run(s, steps).store ==> e in s.store && Run(s, steps).store[e] == s.store[e]
    ensures (forall step :: step in steps ==> !step.Lapse?) ==> Run(s, steps).store == s.store
    decreases |steps|
  {
    if steps != [] {
      assert steps[0] in steps && forall step :: step in steps[1..] ==> step in steps;
      FrozenStep(s, steps[0]);
      StepKeeps(s, steps[0]);
      FrozenRun(Apply(s, steps[0]), steps[1..]);
    }
  }

  lemma ValidatedGeneration(s: State, v: State)
    requires Inv(s) && s.gate.Rebuilding? && v == Apply(s, Validate)
    ensures v.gate == Rebuilding(v.store, true) && v.store == s.store && v.index == s.index
  {
    var g := v.gate.generation;
    assert forall e :: e in v.store ==> e in g && g[e] == v.store[e];
    assert g == v.store;
  }

  /** A rebuild begun in any reachable state serves, once swapped in, exactly what the store held when the
      generation was validated; only rows the clock expired since can differ from the store at the swap. */
  lemma RebuildExact(prefix: seq<Step>, building: seq<Step>, validated: seq<Step>)
    requires Run(Initial, prefix).gate.Open? && !AnyWriting(Run(Initial, prefix))
    requires forall step :: step in building + validated ==> Frozen(step)
    ensures var v := Apply(Run(Apply(Run(Initial, prefix), BeginRebuild), building), Validate);
            var s := Apply(Run(v, validated), Activate);
            && s.index == v.store
            && (forall e :: e in s.store ==> e in s.index && s.index[e] == s.store[e])
            && ((forall step :: step in validated ==> !step.Lapse?) ==> s.index == s.store)
  {
    var s0 := Run(Initial, prefix);
    Reachable(prefix);
    StepKeeps(s0, BeginRebuild);
    var s1 := Apply(s0, BeginRebuild);
    assert forall step :: step in building ==> step in building + validated;
    assert forall step :: step in validated ==> step in building + validated;
    ValidatedAndSwapped(s1, building, validated);
  }

  lemma ValidatedAndSwapped(s1: State, building: seq<Step>, validated: seq<Step>)
    requires Inv(s1) && s1.gate.Rebuilding?
    requires forall step :: step in building ==> Frozen(step)
    requires forall step :: step in validated ==> Frozen(step)
    ensures var v := Apply(Run(s1, building), Validate);
            var s := Apply(Run(v, validated), Activate);
            && s.index == v.store
            && (forall e :: e in s.store ==> e in s.index && s.index[e] == s.store[e])
            && ((forall step :: step in validated ==> !step.Lapse?) ==> s.index == s.store)
  {
    hide Inv, FlightsOk;
    FrozenRun(s1, building);
    RunKeeps(s1, building);
    var s2 := Run(s1, building);
    var v := Apply(s2, Validate);
    StepKeeps(s2, Validate);
    ValidatedGeneration(s2, v);
    FrozenRun(v, validated);
  }

  /** A rebuild cancelled or failed before its swap leaves the served index as it was. */
  lemma AbandonedRebuild(prefix: seq<Step>, building: seq<Step>)
    requires Run(Initial, prefix).gate.Open? && !AnyWriting(Run(Initial, prefix))
    requires forall step :: step in building ==> Frozen(step)
    ensures var s := Apply(Run(Apply(Run(Initial, prefix), BeginRebuild), building), EndMaintenance);
            s.index == Run(Initial, prefix).index && s.gate.Open?
  {
    var s0 := Run(Initial, prefix);
    Reachable(prefix);
    StepKeeps(s0, BeginRebuild);
    FrozenRun(Apply(s0, BeginRebuild), building);
  }

  // ---- what writes and erasures do to the tables ----

  /** An erasure selects a raw message by its user, and anything else by its scope, or as an inference by its author. */
  lemma SelectedExactly(e: Entity, p: Payload, owner: Owner)
    ensures Selected(e, p, owner) <==> if e.collection == "raw" then p.author == owner.user
                                       else p.scopeId == owner.scope || (p.inference && p.author == owner.user)
  {
  }

  /** A write that is refused: the gate is held, the row was erased or would be an erased owner's, or it is not what its
      event says. */
  predicate Refused(s: State, e: Entity, value: Option<Payload>, op: Operation, payload: Payload) {
    || s.gate.Rebuilding? || e in s.erased || payload.scopeId == "" || (op.Upsert? && payload.text == "")
    || (value.Some? && (op.Delete? || payload != value.value || payload.text == ""
                        || exists owner :: owner in s.owners && Selected(e, payload, owner)))
  }

  /** A write lands together with one pending event of it, due at once, that is the newest of its entity; or not at all. */
  lemma WriteExactly(s: State, e: Entity, value: Option<Payload>, op: Operation, payload: Payload, now: int)
    ensures Apply(s, Write(e, value, op, payload, now))
            == if Refused(s, e, value, op, payload) then s
               else s.(store := if value.Some? then s.store[e := value.value] else s.store - {e}, lapsed := s.lapsed - {e},
                       events := s.events[s.nextId := Event(e, op, payload, Pending, 0, now, None, 0)],
                       nextId := s.nextId + 1, latest := s.latest[e := s.nextId])
  {
  }

  /** Queueing a stored row again adds an event of what is stored; expiry by the clock adds none. */
  lemma RequeueAndLapse(s: State, e: Entity, now: int)
    ensures Apply(s, Reenqueue(e, now))
            == if s.gate.Rebuilding? || e !in s.store then s
               else s.(events := s.events[s.nextId := Event(e, Upsert, s.store[e], Pending, 0, now, None, 0)],
                       nextId := s.nextId + 1, latest := s.latest[e := s.nextId])
    ensures Apply(s, Lapse(e)) == if e !in s.store then s else s.(store := s.store - {e}, lapsed := s.lapsed + {e})
  {
  }

  /** The rows an erasure takes: the stored ones it selects, and those named that are neither stored nor erased before. */
  predicate Taken(s: State, owner: Owner, dead: set<Entity>, e: Entity) {
    if e in s.store then Selected(e, s.store[e], owner) else e in dead && e !in s.erased
  }

  /** Erasing the rows takes exactly these with all their events, and owes their points; every other row, event and debt
      stays as it is. */
  lemma ErasureDeletes(s: State, owner: Owner, dead: set<Entity>, e: Entity, id: nat)
    requires s.gate.Erasing?
    ensures var r, taken := Apply(s, EraseStore(owner, dead)), Taken(s, owner, dead, e);
            && Lookup(r.store, e) == (if taken then None else Lookup(s.store, e))
            && (e in r.erased <==> e in s.erased || taken) && (e in r.lapsed <==> e in s.lapsed && !taken)
            && (id in r.events <==> id in s.events && !Taken(s, owner, dead, s.events[id].entity))
            && (id in r.events ==> r.events[id] == s.events[id])
            && (e in r.cleanup <==> e in s.cleanup || taken)
            && (e in r.cleanup ==> r.cleanup[e] == if taken then owner else s.cleanup[e])
            && r.owners == s.owners + {owner} && r.index == s.index && r.gate == s.gate
  {
    assert e in Targets(s, owner, dead) <==> Taken(s, owner, dead, e);
    if id in s.events {
      assert s.events[id].entity in Targets(s, owner, dead) <==> Taken(s, owner, dead, s.events[id].entity);
    }
  }

  /** The removal takes exactly the points that serve what it selects, and settles what was owed for this owner; a point that
      was owed and is still served afterwards was missed. */
  lemma RemovalTakes(s: State, owner: Owner, e: Entity)
    requires s.gate.Erasing? && owner in s.owners
    ensures var r := Apply(s, EraseIndex(owner));
            && (e in r.index <==> e in s.index && !Selected(e, s.index[e], owner)) && (e in r.index ==> r.index[e] == s.index[e])
            && (e in r.cleanup <==> e in s.cleanup && s.cleanup[e] != owner) && (e in r.cleanup ==> r.cleanup[e] == s.cleanup[e])
            && (e in r.stranded <==> e in r.index && (e in s.stranded || (e in s.cleanup && s.cleanup[e] == owner)))
            && r == s.(index := r.index, cleanup := r.cleanup, stranded := r.stranded)
  {
  }

  /** The served index is replaced only by a validated generation, which holds what was stored when it was begun and still is
      when it is validated; a lapsed row stays lapsed only while its point is served. */
  lemma SwapExactly(s: State)
    ensures Apply(s, Activate)
            == if !(s.gate.Rebuilding? && s.gate.validated) then s
               else s.(index := s.gate.generation, lapsed := s.lapsed * s.gate.generation.Keys, stranded := {})
    ensures s.gate.Rebuilding? ==>
              var r := Apply(s, Validate);
              && r == s.(gate := r.gate) && r.gate.Rebuilding? && r.gate.validated
              && forall e :: Lookup(r.gate.generation, e) == if e in s.store then Lookup(s.gate.generation, e) else None
  {
  }

  /** Erasing waits for the gate: while nobody, or a rebuild, holds it, nothing is erased. */
  lemma ErasureNeedsGate(s: State, owner: Owner, dead: set<Entity>)
    ensures !s.gate.Erasing? ==> Apply(s, EraseStore(owner, dead)) == s && Apply(s, EraseIndex(owner)) == s
    ensures s.gate.Open? && (forall t :: t in s.tickets ==> !s.tickets[t].phase.Writing?) ==>
              Apply(s, BeginErase) == s.(gate := Erasing) && Apply(s, BeginRebuild) == s.(gate := Rebuilding(s.store, false))
    ensures !s.gate.Open? || (exists t :: t in s.tickets && s.tickets[t].phase.Writing?) ==>
              Apply(s, BeginErase) == s && Apply(s, BeginRebuild) == s
    ensures Apply(s, EndMaintenance) == s.(gate := Open)
  {
  }

  // ---- runs that end out of step ----

  function DeliverySteps(e: Entity, p: Payload): seq<Step> {
    [Write(e, Some(p), Upsert, p, 0), Claim(0, 60, false, Some(0)), Fence(0, 0), Land(0), Commit(0)]
  }

  function DoneEvent(e: Entity, p: Payload): Event {
    NewEvent(e, Upsert, p, 0).(status := Done)
  }

  /** One memory, written and delivered. */
  function OneDelivered(e: Entity, p: Payload): State {
    Initial.(store := map[e := p], index := map[e := p], events := map[0 := DoneEvent(e, p)], nextId := 1,
             latest := map[e := 0], nextToken := 1)
  }

  lemma FirstWrite(e: Entity, p: Payload, s: State)
    requires WellFormed(p) && s == Apply(Initial, Write(e, Some(p), Upsert, p, 0))
    ensures s == Initial.(store := map[e := p], events := map[0 := NewEvent(e, Upsert, p, 0)], nextId := 1, latest := map[e := 0])
  {
  }

  lemma FirstClaim(e: Entity, p: Payload, s: State, c: State)
    requires s == Initial.(store := map[e := p], events := map[0 := NewEvent(e, Upsert, p, 0)], nextId := 1, latest := map[e := 0])
    requires c == Apply(s, Claim(0, 60, false, Some(0)))
    ensures c == ClaimRow(s, 0, 60)
  {
    assert Reclaimed(s.events, 0) == s.events;
    assert Eligible(s.events, 0, 0, false);
    hide Eligible, Reclaimed;
  }

  lemma FirstDelivery(e: Entity, p: Payload, c: State)
    requires WellFormed(p)
    requires c == ClaimRow(Initial.(store := map[e := p], events := map[0 := NewEvent(e, Upsert, p, 0)], nextId := 1,
                                    latest := map[e := 0]), 0, 60)
    ensures Apply(Apply(Apply(c, Fence(0, 0)), Land(0)), Commit(0)) == OneDelivered(e, p)
  {
    var f := Apply(c, Fence(0, 0));
    assert Owns(c, 0);
    assert f.tickets[0].phase == Writing(Some(p), false);
    var l := Apply(f, Land(0));
    assert l.index == map[e := p] && Owns(l, 0);
    var d := Apply(l, Commit(0));
    assert d.tickets == map[];
    assert d.events == map[0 := DoneEvent(e, p)];
  }

  lemma RunThen(s: State, step: Step, rest: seq<Step>)
    ensures Run(s, [step] + rest) == Run(Apply(s, step), rest)
  {
    assert ([step] + rest)[1..] == rest;
  }

  lemma DeliveredRun(e: Entity, p: Payload, rest: seq<Step>)
    requires WellFormed(p)
    ensures Run(Initial, DeliverySteps(e, p) + rest) == Run(OneDelivered(e, p), rest)
  {
    var w, c, f, l, d := Write(e, Some(p), Upsert, p, 0), Claim(0, 60, false, Some(0)), Fence(0, 0), Land(0), Commit(0);
    var s1 := Apply(Initial, w);
    FirstWrite(e, p, s1);
    var s2 := Apply(s1, c);
    FirstClaim(e, p, s1, s2);
    FirstDelivery(e, p, s2);
    hide Apply, OneDelivered, Run;
    assert DeliverySteps(e, p) + rest == [w] + ([c] + ([f] + ([l] + ([d] + rest))));
    RunThen(Initial, w, [c] + ([f] + ([l] + ([d] + rest))));
    RunThen(s1, c, [f] + ([l] + ([d] + rest)));
    RunThen(s2, f, [l] + ([d] + rest));
    RunThen(Apply(s2, f), l, [d] + rest);
    RunThen(Apply(Apply(s2, f), l), d, rest);
  }

  /** Written, delivered, then expired by the clock: nothing is pending, and the point is still served. */
  lemma LapsedStillServed(e: Entity, p: Payload)
    requires WellFormed(p)
    ensures var s := Run(Initial, DeliverySteps(e, p) + [Lapse(e)]);
            PendingCount(s) == 0 && s.store == map[] && s.index == map[e := p]
  {
    DeliveredRun(e, p, [Lapse(e)]);
    RunThen(OneDelivered(e, p), Lapse(e), []);
    assert [Lapse(e)] + [] == [Lapse(e)];
    assert NotDone(OneDelivered(e, p).events) == {};
  }

  function MovedAndErased(e: Entity, shared: Payload, owner: Owner): seq<Step> {
    var moved := shared.(scopeId := owner.scope);
    DeliverySteps(e, shared)
    + [Write(e, Some(moved), Upsert, moved, 1), BeginErase, EraseStore(owner, {}), EraseIndex(owner), EndMaintenance]
  }

  /** A shared memory moved into its author's own scope and erased with them before the move was delivered: the removal
      looks for the scope the point does not serve yet, so the erased text stays served, with nothing pending or owed. */
  lemma MovedIsMissed(e: Entity, shared: Payload, owner: Owner)
    requires e.collection != RAW && WellFormed(shared) && !shared.inference && owner.scope != "" && shared.scopeId != owner.scope
    ensures var s := Run(Initial, MovedAndErased(e, shared, owner));
            && s.gate.Open? && e in s.erased && s.store == map[] && s.index == map[e := shared]
            && PendingCount(s) == 0 && s.cleanup == map[] && s.stranded == {e}
  {
    hide *;
    var moved := shared.(scopeId := owner.scope);
    var d := OneDelivered(e, shared);
    var w := Write(e, Some(moved), Upsert, moved, 1);
    MovedSteps(e, shared, owner);
    DeliveredRun(e, shared, [w, BeginErase, EraseStore(owner, {}), EraseIndex(owner), EndMaintenance]);
    RunFive(d, w, BeginErase, EraseStore(owner, {}), EraseIndex(owner), EndMaintenance);
    MovedResult(e, shared, owner);
  }

  lemma MovedSteps(e: Entity, shared: Payload, owner: Owner)
    ensures var moved := shared.(scopeId := owner.scope);
            MovedAndErased(e, shared, owner)
            == DeliverySteps(e, shared)
               + [Write(e, Some(moved), Upsert, moved, 1), BeginErase, EraseStore(owner, {}), EraseIndex(owner), EndMaintenance]
  {
  }

  lemma RunFive(s: State, a: Step, b: Step, c: Step, d: Step, f: Step)
    ensures Run(s, [a, b, c, d, f]) == Apply(Apply(Apply(Apply(Apply(s, a), b), c), d), f)
  {
    hide *;
    var s1 := Apply(s, a);
    var s2 := Apply(s1, b);
    var s3 := Apply(s2, c);
    var s4 := Apply(s3, d);
    assert [a, b, c, d, f] == [a] + [b, c, d, f] && [b, c, d, f] == [b] + [c, d, f] && [c, d, f] == [c] + [d, f];
    assert [d, f] == [d] + [f] && [f] == [f] + [];
    RunThen(s, a, [b, c, d, f]);
    RunThen(s1, b, [c, d, f]);
    RunThen(s2, c, [d, f]);
    RunThen(s3, d, [f]);
    RunThen(s4, f, []);
    RunNothing(Apply(s4, f));
  }

  lemma MovedResult(e: Entity, shared: Payload, owner: Owner)
    requires e.collection != RAW && WellFormed(shared) && !shared.inference && owner.scope != "" && shared.scopeId != owner.scope
    ensures var moved := shared.(scopeId := owner.scope);
            var s1 := Apply(OneDelivered(e, shared), Write(e, Some(moved), Upsert, moved, 1));
            var s := Apply(Apply(Apply(Apply(s1, BeginErase), EraseStore(owner, {})), EraseIndex(owner)), EndMaintenance);
            && s.gate.Open? && e in s.erased && s.store == map[] && s.index == map[e := shared]
            && PendingCount(s) == 0 && s.cleanup == map[] && s.stranded == {e}
  {
    var moved := shared.(scopeId := owner.scope);
    assert WellFormed(moved) && !Selected(e, shared, owner);
    hide *;
    var s1 := Apply(OneDelivered(e, shared), Write(e, Some(moved), Upsert, moved, 1));
    MovedWrite(e, shared, moved, s1);
    var s3 := Apply(Apply(s1, BeginErase), EraseStore(owner, {}));
    MovedErased(e, shared, moved, owner, s1, s3);
    var s4 := Apply(s3, EraseIndex(owner));
    DeliveredServes(e, shared);
    MovedSwept(e, shared, owner, s3, s4);
    NoEvents(s4);
  }

  lemma DeliveredServes(e: Entity, p: Payload)
    ensures OneDelivered(e, p).index == map[e := p] && OneDelivered(e, p).stranded == {}
  {
  }

  lemma NoEvents(s: State)
    requires s.events == map[]
    ensures Apply(s, EndMaintenance) == s.(gate := Open) && PendingCount(s.(gate := Open)) == 0
  {
    assert NotDone(s.events) == {};
  }

  lemma RunNothing(s: State)
    ensures Run(s, []) == s
  {
  }

  lemma MovedWrite(e: Entity, shared: Payload, moved: Payload, s: State)
    requires WellFormed(moved) && s == Apply(OneDelivered(e, shared), Write(e, Some(moved), Upsert, moved, 1))
    ensures s == OneDelivered(e, shared).(store := map[e := moved],
                   events := map[0 := DoneEvent(e, shared), 1 := NewEvent(e, Upsert, moved, 1)], nextId := 2, latest := map[e := 1])
  {
  }

  lemma MovedErased(e: Entity, shared: Payload, moved: Payload, owner: Owner, s: State, t: State)
    requires moved.scopeId == owner.scope && e.collection != RAW
    requires s == OneDelivered(e, shared).(store := map[e := moved],
                    events := map[0 := DoneEvent(e, shared), 1 := NewEvent(e, Upsert, moved, 1)], nextId := 2,
                    latest := map[e := 1])
    requires t == Apply(Apply(s, BeginErase), EraseStore(owner, {}))
    ensures t == s.(gate := Erasing, store := map[], events := map[], latest := map[], erased := {e}, owners := {owner},
                    cleanup := map[e := owner])
  {
    var b := s.(gate := Erasing);
    assert Apply(s, BeginErase) == b;
    assert Targets(b, owner, {}) == {e};
    assert t == EraseRows(b, owner, {e});
    assert t.cleanup == map[e := owner] && t.events == map[] && t.store == map[] && t.latest == map[];
  }

  lemma MovedSwept(e: Entity, shared: Payload, owner: Owner, s: State, t: State)
    requires s.gate.Erasing? && owner in s.owners && s.index == map[e := shared] && s.cleanup == map[e := owner] && s.stranded == {}
    requires !Selected(e, shared, owner) && t == Apply(s, EraseIndex(owner))
    ensures t == s.(cleanup := map[], stranded := {e})
  {
    assert t.index == s.index && t.cleanup == map[] && t.stranded == {e};
  }
}
