/** One worker draining the outbox: claim a batch, deliver each row, repeat (outbox.py, `drain`). */
module OutboxWorker {
  import opened Options
  import opened Outbox
  import opened OutboxSafety

  /** What the external calls of one attempt do: succeed, or raise before or after the point was written. */
  datatype Fault = Calm | RaisesBefore | RaisesAfter

  /** Attempts an outstanding row still has. */
  function RowWork(ev: Event, maxAttempts: nat): nat {
    if !Outstanding(ev.status) then 0 else if ev.attempts < maxAttempts then maxAttempts - ev.attempts else 1
  }

  function Work(events: map<nat, Event>, limit: nat, maxAttempts: nat): nat {
    if limit == 0 then 0
    else Work(events, limit - 1, maxAttempts)
         + (if limit - 1 in events then RowWork(events[limit - 1], maxAttempts) else 0)
  }

  lemma {:induction false} WorkChanges(events: map<nat, Event>, events': map<nat, Event>, id: nat, limit: nat, maxAttempts: nat)
    requires id in events && id in events' && events'.Keys == events.Keys
    requires forall j :: j in events && j != id ==> RowWork(events'[j], maxAttempts) == RowWork(events[j], maxAttempts)
    ensures Work(events', limit, maxAttempts) ==
            Work(events, limit, maxAttempts)
            + if id < limit then RowWork(events'[id], maxAttempts) - RowWork(events[id], maxAttempts) else 0
  {
    if limit != 0 {
      WorkChanges(events, events', id, limit - 1, maxAttempts);
    }
  }

  lemma {:induction false} WorkSame(events: map<nat, Event>, events': map<nat, Event>, limit: nat, maxAttempts: nat)
    requires events'.Keys == events.Keys
    requires forall j :: j in events ==> RowWork(events'[j], maxAttempts) == RowWork(events[j], maxAttempts)
    ensures Work(events', limit, maxAttempts) == Work(events, limit, maxAttempts)
  {
    if limit != 0 {
      WorkSame(events, events', limit - 1, maxAttempts);
    }
  }

  /** What one delivery does to the tables, from fence to recorded outcome. */
  function AttemptState(s: State, t: nat, now: int, fault: Fault, maxAttempts: nat): (s': State)
    requires t in s.tickets
    ensures s' == s.(tickets := s.tickets - {t}, events := s'.events, index := s'.index)
  {
    var k := s.tickets[t];
    var gone := s.tickets - {t};
    if !s.gate.Open? then
      if Owns(s, t) then s.(tickets := gone, events := s.events[k.id := Freed(s.events[k.id])]) else s.(tickets := gone)
    else if !Owns(s, t) || s.events[k.id].lease <= now then s.(tickets := gone)
    else
      var effect := Decide(k.op, k.payload, Authoritative(s, k.entity, k.payload));
      var failed := s.events[k.id := FailedRow(s.events[k.id], k.attempts + 1, now, maxAttempts)];
      if fault.RaisesBefore? || effect.Reject? then s.(tickets := gone, events := failed)
      else
        var index := Touch(s.index, k.entity, effect);
        if fault.RaisesAfter? then s.(tickets := gone, events := failed, index := index)
        else
          var done := s.events[k.id := s.events[k.id].(status := Done, token := None, lease := 0)];
          s.(tickets := gone, events := done, index := index)
  }

  /** The transactions behind it, in order. */
  function AttemptSteps(s: State, t: nat, now: int, fault: Fault, maxAttempts: nat): seq<Step>
    requires t in s.tickets
  {
    var k := s.tickets[t];
    if !s.gate.Open? then [Fence(t, now), MarkYielded(t)]
    else if !Owns(s, t) || s.events[k.id].lease <= now then [Fence(t, now)]
    else if fault.RaisesBefore? || Decide(k.op, k.payload, Authoritative(s, k.entity, k.payload)).Reject? then
      [Fence(t, now), Rollback(t), MarkFailed(t, now, maxAttempts)]
    else if fault.RaisesAfter? then [Fence(t, now), Land(t), Rollback(t), MarkFailed(t, now, maxAttempts)]
    else [Fence(t, now), Land(t), Commit(t)]
  }

  lemma TicketsWithout(tickets: map<nat, Ticket>, tickets': map<nat, Ticket>, t: nat, k: Ticket)
    requires tickets' == tickets[t := k]
    ensures tickets' - {t} == tickets - {t}
  {
  }

  /** A failing delivery, from its fenced state on. */
  lemma FailureRun(f: State, t: nat, now: int, maxAttempts: nat)
    requires t in f.tickets && f.tickets[t].phase.Writing? && Owns(f, t)
    ensures Run(f, [Rollback(t), MarkFailed(t, now, maxAttempts)]) ==
            f.(tickets := f.tickets - {t},
               events := f.events[f.tickets[t].id :=
                 FailedRow(f.events[f.tickets[t].id], f.tickets[t].attempts + 1, now, maxAttempts)])
  {
    var r := Apply(f, Rollback(t));
    TicketsWithout(f.tickets, r.tickets, t, r.tickets[t]);
    RunThen(f, Rollback(t), [MarkFailed(t, now, maxAttempts)]);
    RunThen(r, MarkFailed(t, now, maxAttempts), []);
  }

  /** A delivery whose external call reaches the index, from its fenced state on. */
  function Landed(f: State, t: nat): State
    requires t in f.tickets && f.tickets[t].phase.Writing?
  {
    var k := f.tickets[t];
    f.(tickets := f.tickets[t := k.(phase := k.phase.(landed := true))],
       index := Touch(f.index, k.entity, Decide(k.op, k.payload, k.phase.current)))
  }

  lemma CommitRun(f: State, t: nat)
    requires t in f.tickets && f.tickets[t].phase.Writing? && Owns(f, t)
    requires !Decide(f.tickets[t].op, f.tickets[t].payload, f.tickets[t].phase.current).Reject?
    ensures Run(f, [Land(t), Commit(t)]) ==
            Landed(f, t).(tickets := f.tickets - {t},
              events := f.events[f.tickets[t].id := f.events[f.tickets[t].id].(status := Done, token := None, lease := 0)])
  {
    var l := Landed(f, t);
    TicketsWithout(f.tickets, l.tickets, t, l.tickets[t]);
    RunThen(f, Land(t), [Commit(t)]);
    RunThen(l, Commit(t), []);
  }

  lemma LostRun(f: State, t: nat, now: int, maxAttempts: nat)
    requires t in f.tickets && f.tickets[t].phase.Writing? && Owns(f, t)
    requires !Decide(f.tickets[t].op, f.tickets[t].payload, f.tickets[t].phase.current).Reject?
    ensures Run(f, [Land(t), Rollback(t), MarkFailed(t, now, maxAttempts)]) ==
            Landed(f, t).(tickets := f.tickets - {t},
              events := f.events[f.tickets[t].id :=
                FailedRow(f.events[f.tickets[t].id], f.tickets[t].attempts + 1, now, maxAttempts)])
  {
    var l := Landed(f, t);
    TicketsWithout(f.tickets, l.tickets, t, l.tickets[t]);
    RunThen(f, Land(t), [Rollback(t), MarkFailed(t, now, maxAttempts)]);
    assert [Land(t)] + [Rollback(t), MarkFailed(t, now, maxAttempts)] == [Land(t), Rollback(t), MarkFailed(t, now, maxAttempts)];
    FailureRun(l, t, now, maxAttempts);
  }

  /** The fence as a delivery sees it: busy, not mine any more, or mine until it ends. */
  lemma FencedState(s: State, t: nat, now: int)
    requires t in s.tickets && s.tickets[t].phase.Held?
    ensures var f := Apply(s, Fence(t, now));
            if !s.gate.Open? then f == SetPhase(s, t, Yielding)
            else if !Owns(s, t) || s.events[s.tickets[t].id].lease <= now then f == Drop(s, t)
            else f == SetPhase(s, t, Writing(Authoritative(s, s.tickets[t].entity, s.tickets[t].payload), false)) && Owns(f, t)
    ensures t in Apply(s, Fence(t, now)).tickets ==> Apply(s, Fence(t, now)).tickets - {t} == s.tickets - {t}
  {
  }

  lemma BusyRuns(s: State, t: nat, now: int, fault: Fault, maxAttempts: nat)
    requires t in s.tickets && s.tickets[t].phase.Held? && !s.gate.Open?
    ensures Run(s, [Fence(t, now), MarkYielded(t)]) == AttemptState(s, t, now, fault, maxAttempts)
  {
    FencedState(s, t, now);
    assert [Fence(t, now), MarkYielded(t)] == [Fence(t, now)] + [MarkYielded(t)];
    RunThen(s, Fence(t, now), [MarkYielded(t)]);
    RunThen(Apply(s, Fence(t, now)), MarkYielded(t), []);
  }

  lemma FencedRuns(s: State, t: nat, now: int, fault: Fault, maxAttempts: nat)
    requires t in s.tickets && s.tickets[t].phase.Held? && s.gate.Open?
    requires Owns(s, t) && s.events[s.tickets[t].id].lease > now
    ensures Run(Apply(s, Fence(t, now)), AttemptSteps(s, t, now, fault, maxAttempts)[1..])
            == AttemptState(s, t, now, fault, maxAttempts)
  {
    FencedState(s, t, now);
    hide Touch, FailedRow, Authoritative;
    var f := Apply(s, Fence(t, now));
    if fault.RaisesBefore? || Decide(f.tickets[t].op, f.tickets[t].payload, f.tickets[t].phase.current).Reject? {
      FailureRun(f, t, now, maxAttempts);
    } else if fault.Calm? {
      CommitRun(f, t);
    } else {
      LostRun(f, t, now, maxAttempts);
    }
  }

  /** A delivery is a run of the protocol. */
  lemma AttemptRuns(s: State, t: nat, now: int, fault: Fault, maxAttempts: nat)
    requires t in s.tickets && s.tickets[t].phase.Held?
    ensures Run(s, AttemptSteps(s, t, now, fault, maxAttempts)) == AttemptState(s, t, now, fault, maxAttempts)
  {
    hide Decide, Touch, FailedRow, Authoritative, Apply;
    var steps := AttemptSteps(s, t, now, fault, maxAttempts);
    assert steps == [Fence(t, now)] + steps[1..];
    RunThen(s, Fence(t, now), steps[1..]);
    if !s.gate.Open? {
      BusyRuns(s, t, now, fault, maxAttempts);
    } else if Owns(s, t) && s.events[s.tickets[t].id].lease > now {
      FencedRuns(s, t, now, fault, maxAttempts);
    } else {
      FencedState(s, t, now);
    }
  }

  lemma AttemptKeeps(s: State, t: nat, now: int, fault: Fault, maxAttempts: nat)
    requires Inv(s) && t in s.tickets && s.tickets[t].phase.Held?
    ensures Inv(AttemptState(s, t, now, fault, maxAttempts))
  {
    AttemptRuns(s, t, now, fault, maxAttempts);
    RunKeeps(s, AttemptSteps(s, t, now, fault, maxAttempts));
  }

  /** The claim is still this worker's and delivery may begin. */
  predicate Live(s: State, t: nat, now: int) {
    s.gate.Open? && Owns(s, t) && s.tickets[t].phase.Held? && s.events[s.tickets[t].id].lease > now
  }

  /** The row a live attempt leaves behind: done, or put back with one attempt fewer. */
  function AttemptRow(ev: Event, now: int, fault: Fault, maxAttempts: nat): Event {
    if fault.Calm? then ev.(status := Done, token := None, lease := 0)
    else FailedRow(ev, ev.attempts + 1, now, maxAttempts)
  }

  /** A live attempt settles its row or puts it back, and touches no other row. */
  lemma LiveAttempt(s: State, t: nat, now: int, fault: Fault, maxAttempts: nat)
    requires Inv(s) && Live(s, t, now)
    ensures var s' := AttemptState(s, t, now, fault, maxAttempts);
            s'.events == s.events[s.tickets[t].id := AttemptRow(s.events[s.tickets[t].id], now, fault, maxAttempts)]
    ensures !Decide(s.tickets[t].op, s.tickets[t].payload, Authoritative(s, s.tickets[t].entity, s.tickets[t].payload)).Reject?
  {
    assert s.events[s.tickets[t].id].payload == s.tickets[t].payload;
  }

  /** Every undisturbed attempt, failing or not, strictly lowers the work left. */
  lemma LiveAttemptLowersWork(s: State, t: nat, now: int, fault: Fault, maxAttempts: nat)
    requires Inv(s) && Live(s, t, now)
    ensures Work(AttemptState(s, t, now, fault, maxAttempts).events, s.nextId, maxAttempts)
            < Work(s.events, s.nextId, maxAttempts)
  {
    LiveAttempt(s, t, now, fault, maxAttempts);
    var id := s.tickets[t].id;
    WorkChanges(s.events, AttemptState(s, t, now, fault, maxAttempts).events, id, s.nextId, maxAttempts);
  }

  /** The clock stays within one lease. */
  ghost predicate Steady(clock: nat -> int, leaseSeconds: nat, floor: int, ceiling: int) {
    forall i :: floor <= clock(i) <= ceiling < floor + leaseSeconds
  }

  lemma SteadyAt(clock: nat -> int, leaseSeconds: nat, floor: int, ceiling: int, i: nat)
    requires Steady(clock, leaseSeconds, floor, ceiling)
    ensures floor <= clock(i) <= ceiling < clock(i) + leaseSeconds
  {
  }

  /** These claims are held, by rising token. */
  predicate Batch(s: State, rows: seq<nat>) {
    && (forall i :: 0 <= i < |rows| ==> rows[i] in s.tickets && s.tickets[rows[i]].phase.Held?)
    && (forall i, j :: 0 <= i < j < |rows| ==> rows[i] < rows[j])
  }

  /** ... and their leases outlast `ceiling`. */
  predicate Leases(s: State, rows: seq<nat>, ceiling: int)
    requires Batch(s, rows)
  {
    forall i :: 0 <= i < |rows| ==> Owns(s, rows[i]) && s.events[s.tickets[rows[i]].id].lease > ceiling
  }

  /** This row is done, claimed by this worker, or deliverable at any time from `floor` on. */
  predicate DueOrHeld(s: State, rows: seq<nat>, floor: int, ignoreSchedule: bool, id: nat)
    requires id in s.events
  {
    var ev := s.events[id];
    || ev.status.Done?
    || (ev.status.Pending? && (ignoreSchedule || ev.availableAt <= floor))
    || (ev.token.Some? && ev.token.value in rows && ev.token.value in s.tickets && s.tickets[ev.token.value].id == id)
  }

  predicate AllDue(s: State, rows: seq<nat>, floor: int, ignoreSchedule: bool) {
    forall id :: id in s.events ==> DueOrHeld(s, rows, floor, ignoreSchedule, id)
  }

  lemma CountSame(s: State, s': State)
    requires s'.events.Keys == s.events.Keys
    requires forall id :: id in s.events ==> s'.events[id].status.Done? == s.events[id].status.Done?
    ensures PendingCount(s') == PendingCount(s)
  {
    assert NotDone(s.events) == NotDone(s'.events);
  }

  lemma CountDelivered(s: State, s': State, id: nat)
    requires id in s.events && !s.events[id].status.Done?
    requires id in s'.events && s'.events == s.events[id := s'.events[id]] && s'.events[id].status.Done?
    ensures PendingCount(s') == PendingCount(s) - 1
  {
    assert NotDone(s.events) == NotDone(s'.events) + {id};
  }

  /** The lowest pending row of all is deliverable, so finding none deliverable means none is pending. */
  lemma NothingDue(s: State, now: int, ignoreSchedule: bool)
    requires IsNext(s.events, now, ignoreSchedule, None)
    requires forall id :: id in s.events ==> id < s.nextId
    requires forall id :: id in s.events ==>
               s.events[id].status.Done? || (s.events[id].status.Pending? && (ignoreSchedule || s.events[id].availableAt <= now))
    ensures PendingCount(s) == 0
  {
    NoneUpTo(s, now, ignoreSchedule, s.nextId);
    assert NotDone(s.events) == {};
  }

  lemma {:induction false} NoneUpTo(s: State, now: int, ignoreSchedule: bool, limit: nat)
    requires IsNext(s.events, now, ignoreSchedule, None)
    requires forall id :: id in s.events ==>
               s.events[id].status.Done? || (s.events[id].status.Pending? && (ignoreSchedule || s.events[id].availableAt <= now))
    ensures forall id :: id in s.events && id < limit ==> s.events[id].status.Done?
  {
    if limit != 0 {
      NoneUpTo(s, now, ignoreSchedule, limit - 1);
      if limit - 1 in s.events {
        assert !Eligible(s.events, limit - 1, now, ignoreSchedule);
      }
    }
  }

  /** A claim leaves every row it does not take, and whose lease is live, alone; and no row's work changes. */
  lemma ClaimEffect(s: State, s': State, now: int, leaseSeconds: nat, ignoreSchedule: bool, row: Option<nat>, maxAttempts: nat)
    requires !ReclaimBlocked(s, now) && IsNext(Reclaimed(s.events, now), now, ignoreSchedule, row)
    requires s' == Apply(s, Claim(now, leaseSeconds, ignoreSchedule, row))
    ensures s'.events.Keys == s.events.Keys && s'.nextId == s.nextId
    ensures forall id :: id in s.events ==>
              && RowWork(s'.events[id], maxAttempts) == RowWork(s.events[id], maxAttempts)
              && s'.events[id].status.Done? == s.events[id].status.Done?
              && (Some(id) != row && !Expired(s.events[id], now) ==> s'.events[id] == s.events[id])
    ensures row.Some? ==>
              && s'.nextToken == s.nextToken + 1 && row.value in s'.events
              && s'.events[row.value].token == Some(s.nextToken) && s'.events[row.value].lease == now + leaseSeconds
              && s'.events[row.value].status.Processing? && Reclaimed(s.events, now)[row.value].status.Pending?
              && s'.tickets == s.tickets[s.nextToken := s'.tickets[s.nextToken]]
              && s.nextToken in s'.tickets && s'.tickets[s.nextToken].id == row.value && s'.tickets[s.nextToken].phase.Held?
    ensures row.None? ==> s'.tickets == s.tickets && s'.events == Reclaimed(s.events, now)
  {
  }

  function Extended(s: State, rows: seq<nat>, row: Option<nat>): seq<nat> {
    if row.Some? then rows + [s.nextToken] else rows
  }

  lemma ClaimExtends(s: State, s': State, rows: seq<nat>, now: int, leaseSeconds: nat, ignoreSchedule: bool, row: Option<nat>)
    requires Batch(s, rows) && (forall u :: u in rows ==> u < s.nextToken) && !AnyWriting(s)
    requires IsNext(Reclaimed(s.events, now), now, ignoreSchedule, row)
    requires s' == Apply(s, Claim(now, leaseSeconds, ignoreSchedule, row))
    ensures Batch(s', Extended(s, rows, row)) && !AnyWriting(s') && !ReclaimBlocked(s, now)
    ensures forall u :: u in Extended(s, rows, row) ==> u < s'.nextToken
  {
    assert !ReclaimBlocked(s, now);
    ClaimEffect(s, s', now, leaseSeconds, ignoreSchedule, row, 0);
    assert forall i :: 0 <= i < |rows| ==> rows[i] in rows;
  }

  lemma ClaimLeases(s: State, s': State, rows: seq<nat>, now: int, leaseSeconds: nat, ignoreSchedule: bool, row: Option<nat>,
                    ceiling: int)
    requires Batch(s, rows) && (forall u :: u in rows ==> u < s.nextToken)
    requires Leases(s, rows, ceiling) && now <= ceiling < now + leaseSeconds
    requires !ReclaimBlocked(s, now) && IsNext(Reclaimed(s.events, now), now, ignoreSchedule, row)
    requires s' == Apply(s, Claim(now, leaseSeconds, ignoreSchedule, row)) && Batch(s', Extended(s, rows, row))
    ensures Leases(s', Extended(s, rows, row), ceiling)
  {
    ClaimEffect(s, s', now, leaseSeconds, ignoreSchedule, row, 0);
    var more := Extended(s, rows, row);
    forall i | 0 <= i < |more|
      ensures Owns(s', more[i]) && s'.events[s'.tickets[more[i]].id].lease > ceiling
    {
      if i < |rows| {
        assert rows[i] == more[i];
        assert rows[i] in rows && rows[i] in s.tickets && Owns(s, rows[i]);
        assert s'.tickets[rows[i]] == s.tickets[rows[i]];
      }
    }
  }

  /** A row this worker holds is not reclaimed under it. */
  lemma HeldNotExpired(s: State, rows: seq<nat>, ceiling: int, id: nat, now: int)
    requires Batch(s, rows) && Leases(s, rows, ceiling) && now <= ceiling && id in s.events
    requires s.events[id].token.Some? && s.events[id].token.value in rows && s.events[id].token.value in s.tickets
             && s.tickets[s.events[id].token.value].id == id
    ensures !Expired(s.events[id], now)
  {
    var i :| 0 <= i < |rows| && rows[i] == s.events[id].token.value;
    assert Owns(s, rows[i]);
  }

  lemma ClaimAllDue(s: State, s': State, rows: seq<nat>, now: int, leaseSeconds: nat, ignoreSchedule: bool, row: Option<nat>,
                    floor: int, ceiling: int)
    requires Batch(s, rows) && Leases(s, rows, ceiling) && now <= ceiling && AllDue(s, rows, floor, ignoreSchedule)
    requires (forall id :: id in s.events ==> id < s.nextId) && (forall u :: u in rows ==> u < s.nextToken)
    requires !ReclaimBlocked(s, now) && IsNext(Reclaimed(s.events, now), now, ignoreSchedule, row)
    requires s' == Apply(s, Claim(now, leaseSeconds, ignoreSchedule, row))
    ensures AllDue(s', Extended(s, rows, row), floor, ignoreSchedule)
    ensures row.None? && rows == [] && floor <= now ==> PendingCount(s') == 0
  {
    ClaimEffect(s, s', now, leaseSeconds, ignoreSchedule, row, 0);
    forall id | id in s'.events
      ensures DueOrHeld(s', Extended(s, rows, row), floor, ignoreSchedule, id)
    {
      ClaimDueRow(s, s', rows, now, leaseSeconds, ignoreSchedule, row, floor, ceiling, id);
    }
    hide IsNext, Reclaimed, ReclaimBlocked, Leases, PendingCount, Apply, DueOrHeld;
    if row.None? && rows == [] && floor <= now {
      StillDue(s, s', now, ignoreSchedule, floor);
      NothingDue(s', now, ignoreSchedule);
    }
  }

  lemma ClaimDueRow(s: State, s': State, rows: seq<nat>, now: int, leaseSeconds: nat, ignoreSchedule: bool, row: Option<nat>,
                    floor: int, ceiling: int, id: nat)
    requires Batch(s, rows) && Leases(s, rows, ceiling) && now <= ceiling && AllDue(s, rows, floor, ignoreSchedule)
    requires (forall u :: u in rows ==> u < s.nextToken) && id in s.events && id in s'.events
    requires !ReclaimBlocked(s, now) && IsNext(Reclaimed(s.events, now), now, ignoreSchedule, row)
    requires s' == Apply(s, Claim(now, leaseSeconds, ignoreSchedule, row))
    ensures DueOrHeld(s', Extended(s, rows, row), floor, ignoreSchedule, id)
  {
    hide Apply, IsNext, ReclaimBlocked, Reclaimed, Leases, RowWork;
    ClaimEffect(s, s', now, leaseSeconds, ignoreSchedule, row, 0);
    assert DueOrHeld(s, rows, floor, ignoreSchedule, id);
    if s.events[id].token.Some? && s.events[id].token.value in rows && s.events[id].token.value in s.tickets
       && s.tickets[s.events[id].token.value].id == id {
      HeldNotExpired(s, rows, ceiling, id, now);
    }
    hide Batch, AllDue;
    assert forall u :: u in rows ==> u in Extended(s, rows, row);
    if row.Some? { assert s.nextToken in Extended(s, rows, row); }
  }

  lemma StillDue(s: State, s': State, now: int, ignoreSchedule: bool, floor: int)
    requires AllDue(s, [], floor, ignoreSchedule) && floor <= now && s'.events == Reclaimed(s.events, now)
    ensures forall id :: id in s'.events ==>
              s'.events[id].status.Done? || (s'.events[id].status.Pending? && (ignoreSchedule || s'.events[id].availableAt <= now))
  {
    forall id | id in s'.events
      ensures s'.events[id].status.Done? || (s'.events[id].status.Pending? && (ignoreSchedule || s'.events[id].availableAt <= now))
    {
      assert DueOrHeld(s, [], floor, ignoreSchedule, id);
    }
  }

  /** What claiming a batch keeps, from the state `s0` it began in ... */
  ghost predicate Claiming(s0: State, s: State, rows: seq<nat>, maxAttempts: nat) {
    && Inv(s) && !AnyWriting(s) && Batch(s, rows) && (forall u :: u in rows ==> u < s.nextToken)
    && (forall id :: id in s.events ==> id < s.nextId)
    && Work(s.events, s.nextId, maxAttempts) == Work(s0.events, s0.nextId, maxAttempts)
    && PendingCount(s) == PendingCount(s0)
  }

  /** ... and what it keeps while the clock is steady. */
  ghost predicate InTime(s0: State, s: State, rows: seq<nat>, ignoreSchedule: bool, floor: int, ceiling: int) {
    Batch(s, rows) && Leases(s, rows, ceiling)
    && (AllDue(s0, [], floor, ignoreSchedule) ==> AllDue(s, rows, floor, ignoreSchedule))
  }

  lemma ClaimingReady(s0: State, s: State, rows: seq<nat>, maxAttempts: nat, now: int)
    requires Claiming(s0, s, rows, maxAttempts)
    ensures (forall id :: id in s.events ==> id < s.nextId) && !ReclaimBlocked(s, now)
  {
    hide Inv;
  }

  lemma ClaimingStart(s: State, ignoreSchedule: bool, maxAttempts: nat, floor: int, ceiling: int)
    requires Inv(s) && !AnyWriting(s)
    ensures Claiming(s, s, [], maxAttempts) && InTime(s, s, [], ignoreSchedule, floor, ceiling)
  {
    assert Bounded(s);
    hide Inv, AllDue;
  }

  lemma ClaimingStep(s0: State, s: State, s': State, rows: seq<nat>, step: Step, maxAttempts: nat)
    requires step.Claim? && Claiming(s0, s, rows, maxAttempts)
    requires IsNext(Reclaimed(s.events, step.now), step.now, step.ignoreSchedule, step.row) && s' == Apply(s, step)
    ensures Claiming(s0, s', Extended(s, rows, step.row), maxAttempts)
  {
    hide Inv, IsNext, Reclaimed, AnyWriting, ReclaimBlocked;
    ClaimExtends(s, s', rows, step.now, step.leaseSeconds, step.ignoreSchedule, step.row);
    ClaimEffect(s, s', step.now, step.leaseSeconds, step.ignoreSchedule, step.row, maxAttempts);
    WorkSame(s.events, s'.events, s.nextId, maxAttempts);
    CountSame(s, s');
    StepKeeps(s, step);
  }

  lemma InTimeStep(s0: State, s: State, s': State, rows: seq<nat>, step: Step, maxAttempts: nat, floor: int, ceiling: int)
    requires step.Claim? && Claiming(s0, s, rows, maxAttempts) && InTime(s0, s, rows, step.ignoreSchedule, floor, ceiling)
    requires IsNext(Reclaimed(s.events, step.now), step.now, step.ignoreSchedule, step.row) && s' == Apply(s, step)
    requires floor <= step.now <= ceiling < step.now + step.leaseSeconds
    ensures InTime(s0, s', Extended(s, rows, step.row), step.ignoreSchedule, floor, ceiling)
    ensures AllDue(s0, [], floor, step.ignoreSchedule) && step.row.None? && rows == [] ==> PendingCount(s') == 0
  {
    hide Inv, IsNext, Reclaimed, AnyWriting, ReclaimBlocked, AllDue, Leases, Apply;
    ClaimExtends(s, s', rows, step.now, step.leaseSeconds, step.ignoreSchedule, step.row);
    ClaimLeases(s, s', rows, step.now, step.leaseSeconds, step.ignoreSchedule, step.row, ceiling);
    if AllDue(s0, [], floor, step.ignoreSchedule) {
      ClaimAllDue(s, s', rows, step.now, step.leaseSeconds, step.ignoreSchedule, step.row, floor, ceiling);
    }
  }

  /** What delivering a batch keeps: the rest of it is still held. */
  ghost predicate Delivering(s0: State, s: State, rest: seq<nat>) {
    && Inv(s) && !AnyWriting(s) && Batch(s, rest)
    && s.gate == s0.gate && s.nextId == s0.nextId
  }

  /** ... and, in time, that each of the `n` attempts made so far lowered the work. */
  ghost predicate Progress(s0: State, s: State, rest: seq<nat>, n: nat, maxAttempts: nat, ceiling: int) {
    && Batch(s, rest) && Leases(s, rest, ceiling)
    && Work(s.events, s.nextId, maxAttempts) + n <= Work(s0.events, s0.nextId, maxAttempts)
  }

  /** ... and, without faults, that each settled one row. */
  ghost predicate Settling(s0: State, s: State, rest: seq<nat>, n: nat, ignoreSchedule: bool, floor: int) {
    AllDue(s, rest, floor, ignoreSchedule) && PendingCount(s) + n == PendingCount(s0)
  }

  ghost predicate InStep(s0: State, s: State, rest: seq<nat>, n: nat, steady: bool, maxAttempts: nat, ceiling: int) {
    s0.gate.Open? && steady ==> Progress(s0, s, rest, n, maxAttempts, ceiling)
  }

  lemma DeliveringStep(s0: State, s: State, s': State, rest: seq<nat>, now: int, fault: Fault, maxAttempts: nat)
    requires rest != [] && Delivering(s0, s, rest)
    requires rest[0] in s.tickets && s' == AttemptState(s, rest[0], now, fault, maxAttempts)
    ensures Delivering(s0, s', rest[1..])
  {
    hide Inv, AttemptState;
    AttemptKeeps(s, rest[0], now, fault, maxAttempts);
  }

  lemma ProgressStep(s0: State, s: State, s': State, rest: seq<nat>, n: nat, now: int, fault: Fault, maxAttempts: nat, ceiling: int)
    requires rest != [] && Delivering(s0, s, rest) && Progress(s0, s, rest, n, maxAttempts, ceiling)
    requires s0.gate.Open? && now <= ceiling
    requires rest[0] in s.tickets && s' == AttemptState(s, rest[0], now, fault, maxAttempts)
    ensures Live(s, rest[0], now) && Progress(s0, s', rest[1..], n + 1, maxAttempts, ceiling)
  {
    hide Inv, AttemptState, Work, RowWork;
    LiveAttempt(s, rest[0], now, fault, maxAttempts);
    LiveAttemptLowersWork(s, rest[0], now, fault, maxAttempts);
  }

  lemma SettlingStep(s0: State, s: State, s': State, rest: seq<nat>, n: nat, now: int, maxAttempts: nat,
                     ignoreSchedule: bool, floor: int)
    requires rest != [] && Inv(s) && Live(s, rest[0], now) && Settling(s0, s, rest, n, ignoreSchedule, floor)
    requires s' == AttemptState(s, rest[0], now, Calm, maxAttempts)
    ensures Settling(s0, s', rest[1..], n + 1, ignoreSchedule, floor)
  {
    hide Inv, AttemptState, PendingCount;
    LiveAttempt(s, rest[0], now, Calm, maxAttempts);
    CountDelivered(s, s', s.tickets[rest[0]].id);
    assert forall u :: u in rest && u != rest[0] ==> u in rest[1..];
  }

  lemma DeliveringStart(s0: State, rows: seq<nat>, steady: bool, maxAttempts: nat, ceiling: int)
    requires Batch(s0, rows) && (steady ==> Leases(s0, rows, ceiling))
    ensures InStep(s0, s0, rows, 0, steady, maxAttempts, ceiling)
  {
  }

  lemma DeliveringEnd(s0: State, s: State, rest: seq<nat>)
    requires Delivering(s0, s, rest)
    ensures Delivering(s0, s, []) && s.gate == s0.gate && s.nextId == s0.nextId
  {
    hide Inv;
  }

  lemma SettlingEnd(s0: State, s: State, n: nat, ignoreSchedule: bool, floor: int)
    ensures Settling(s0, s, [], n, ignoreSchedule, floor) ==>
              AllDue(s, [], floor, ignoreSchedule) && PendingCount(s) + n == PendingCount(s0)
  {
  }

  lemma ProgressEnd(s0: State, s: State, n: nat, maxAttempts: nat, ceiling: int)
    requires s0.gate.Open? && InStep(s0, s, [], n, true, maxAttempts, ceiling)
    ensures Work(s.events, s.nextId, maxAttempts) + n <= Work(s0.events, s0.nextId, maxAttempts)
  {
  }

  /** A batch claimed is a batch ready to deliver. */
  lemma ClaimedReady(s0: State, s: State, rows: seq<nat>, maxAttempts: nat)
    requires Claiming(s0, s, rows, maxAttempts)
    ensures Delivering(s, s, rows)
    ensures Work(s.events, s.nextId, maxAttempts) == Work(s0.events, s0.nextId, maxAttempts) && PendingCount(s) == PendingCount(s0)
  {
    hide Inv, Work, PendingCount;
  }

  lemma ClaimedInTime(s0: State, s: State, rows: seq<nat>, ignoreSchedule: bool, floor: int, ceiling: int)
    requires InTime(s0, s, rows, ignoreSchedule, floor, ceiling)
    ensures Batch(s, rows) && Leases(s, rows, ceiling)
    ensures AllDue(s0, [], floor, ignoreSchedule) ==> AllDue(s, rows, floor, ignoreSchedule)
  {
    hide AllDue;
  }

  /** The state between two batches. */
  ghost predicate Idle(s: State) {
    Inv(s) && !AnyWriting(s)
  }

  lemma DrainedIdle(s: State)
    requires Idle(s) && PendingCount(s) == 0
    ensures forall e :: e in s.store ==> e in s.index && s.index[e] == s.store[e]
  {
    hide Inv, PendingCount;
    Parity(s);
  }

  lemma DeliveredIdle(s0: State, s: State)
    requires Delivering(s0, s, [])
    ensures Idle(s)
  {
    hide Inv;
  }

  /** A row that a claim may take: pending, or leased until now at the latest; due, unless the schedule is ignored; and every
      earlier row of its entity is done or failed. */
  predicate Takeable(events: map<nat, Event>, id: nat, now: int, ignoreSchedule: bool) {
    && id in events
    && (events[id].status.Pending? || (events[id].status.Processing? && events[id].token.Some? && events[id].lease <= now))
    && (ignoreSchedule || events[id].availableAt <= now)
    && forall j :: j in events && j < id && events[j].entity == events[id].entity ==>
         events[j].status.Done? || events[j].status.Failed?
  }

  /** What a claim does to the rows: the one it takes is leased to the token, every other whose lease ran out is pending again
      and nobody's, and no other changes. */
  predicate RowsClaimed(before: map<nat, Event>, after: map<nat, Event>, row: Option<nat>, token: nat, now: int, until: int) {
    && after.Keys == before.Keys
    && forall id | id in before && id in after ::
         if row == Some(id) then after[id] == before[id].(status := Processing, token := Some(token), lease := until)
         else if before[id].status.Processing? && before[id].token.Some? && before[id].lease <= now
         then after[id] == before[id].(status := Pending, token := None, lease := 0)
         else after[id] == before[id]
  }

  lemma TakeableExactly(events: map<nat, Event>, id: nat, now: int, ignoreSchedule: bool)
    ensures Takeable(events, id, now, ignoreSchedule) <==> Eligible(Reclaimed(events, now), id, now, ignoreSchedule)
  {
    var r := Reclaimed(events, now);
    assert forall j :: j in events ==>
             r[j].entity == events[j].entity && (Outstanding(r[j].status) <==> Outstanding(events[j].status));
    hide Reclaimed;
  }

  /** The claim takes the lowest row that may be taken, or there is none. */
  lemma ClaimTakesNext(s: State, now: int, leaseSeconds: nat, ignoreSchedule: bool, row: Option<nat>)
    requires IsNext(Reclaimed(s.events, now), now, ignoreSchedule, row) && !ReclaimBlocked(s, now)
    ensures var s' := Apply(s, Claim(now, leaseSeconds, ignoreSchedule, row));
            && (row.Some? ==> Takeable(s.events, row.value, now, ignoreSchedule))
            && (forall id :: Takeable(s.events, id, now, ignoreSchedule) ==> row.Some? && row.value <= id)
            && RowsClaimed(s.events, s'.events, row, s.nextToken, now, now + leaseSeconds)
            && s'.nextToken == s.nextToken + (if row.Some? then 1 else 0)
            && s'.tickets == match row
                             case None => s.tickets
                             case Some(id) =>
                               var ev := s.events[id];
                               s.tickets[s.nextToken := Ticket(id, ev.entity, ev.op, ev.payload, ev.attempts, Held)]
  {
    if row.Some? { TakeableExactly(s.events, row.value, now, ignoreSchedule); }
    forall id | Takeable(s.events, id, now, ignoreSchedule)
      ensures row.Some? && row.value <= id
    {
      TakeableExactly(s.events, id, now, ignoreSchedule);
    }
    hide Takeable, Eligible, ReclaimBlocked;
  }

  /** At one of these times there was nothing to take. */
  ghost predicate Exhausted(events: map<nat, Event>, clock: nat -> int, ignoreSchedule: bool) {
    exists i: nat :: NothingTakeable(events, clock(i), ignoreSchedule)
  }

  ghost predicate NothingTakeable(events: map<nat, Event>, now: int, ignoreSchedule: bool) {
    forall id :: !Takeable(events, id, now, ignoreSchedule)
  }

  /** A claim that found nothing leaves nothing. */
  lemma NothingLeft(before: map<nat, Event>, after: map<nat, Event>, token: nat, now: int, until: int, ignoreSchedule: bool)
    requires RowsClaimed(before, after, None, token, now, until) && NothingTakeable(before, now, ignoreSchedule)
    ensures NothingTakeable(after, now, ignoreSchedule)
  {
    forall id
      ensures !Takeable(after, id, now, ignoreSchedule)
    {
      assert !Takeable(before, id, now, ignoreSchedule);
    }
  }

  /** So many rows were settled. */
  ghost predicate Counted(s0: State, s: State, n: nat) {
    PendingCount(s) + n == PendingCount(s0)
  }

  /** Every delivery that is reported applied settles one row, and no other delivery settles any. */
  lemma AttemptCounts(s: State, t: nat, now: int, fault: Fault, maxAttempts: nat)
    requires t in s.tickets && s.tickets[t].phase.Held?
    ensures var k := s.tickets[t];
            var effect := Decide(k.op, k.payload, Authoritative(s, k.entity, k.payload));
            var applied := fault.Calm? && Live(s, t, now) && !effect.Reject?;
            PendingCount(AttemptState(s, t, now, fault, maxAttempts)) + (if applied then 1 else 0) == PendingCount(s)
  {
    var s', k := AttemptState(s, t, now, fault, maxAttempts), s.tickets[t];
    hide Decide, Authoritative, Touch, RetryDelay, PendingCount;
    if fault.Calm? && Live(s, t, now) && !Decide(k.op, k.payload, Authoritative(s, k.entity, k.payload)).Reject? {
      CountDelivered(s, s', k.id);
    } else {
      CountSame(s, s');
    }
  }

  /** Only a delivery that is writing one of the rows whose lease ran out can hold up a claim. */
  lemma BlockedExactly(s: State, now: int)
    ensures ReclaimBlocked(s, now) <==>
              exists t :: t in s.tickets && s.tickets[t].phase.Writing? && s.tickets[t].id in s.events
                          && var ev := s.events[s.tickets[t].id]; ev.status.Processing? && ev.token.Some? && ev.lease <= now
  {
    forall t | t in s.tickets && s.tickets[t].phase.Writing?
      ensures Locked(s, s.tickets[t].id)
    {
    }
  }

  /** What a delivery that was applied leaves in the index, from the row it was of and what the store holds then: its payload
      if that is what the store holds, no point if the store holds none, and otherwise what a newer event will change. */
  ghost predicate Served(before: map<Entity, Payload>, after: map<Entity, Payload>, e: Entity, op: Operation, payload: Payload,
                         current: Option<Payload>) {
    && (forall x :: x != e ==> Lookup(after, x) == Lookup(before, x))
    && (current.None? ==> e !in after)
    && (current == Some(payload) && op.Upsert? ==> e in after && after[e] == payload)
    && (current.Some? && payload.scopeId != "" && (op.Delete? || current.value != payload) ==>
          Lookup(after, e) == Lookup(before, e))
    && (payload.scopeId == "" && op.Delete? ==> e !in after)
  }

  lemma TouchServes(before: map<Entity, Payload>, e: Entity, op: Operation, payload: Payload, current: Option<Payload>)
    requires !Decide(op, payload, current).Reject?
    ensures Served(before, Touch(before, e, Decide(op, payload, current)), e, op, payload, current)
  {
  }

  class Worker {
    var store: map<Entity, Payload>
    var index: map<Entity, Payload>
    var events: map<nat, Event>
    var nextId: nat
    var tickets: map<nat, Ticket>
    var nextToken: nat
    var gate: Gate
    ghost var latest: map<Entity, nat>
    ghost var lapsed: set<Entity>
    ghost var erased: set<Entity>
    ghost var owners: set<Owner>
    ghost var cleanup: map<Entity, Owner>
    ghost var stranded: set<Entity>

    ghost function View(): State
      reads this
    {
      State(store, index, events, nextId, latest, tickets, nextToken, gate, lapsed, erased, owners, cleanup, stranded)
    }

    /** _claim_next: reclaim expired leases, then lease the lowest eligible row. */
    method ClaimNext(now: int, leaseSeconds: nat, ignoreSchedule: bool) returns (row: Option<nat>)
      requires (forall id :: id in events ==> id < nextId) && !ReclaimBlocked(View(), now)
      modifies this`events, this`tickets, this`nextToken
      ensures IsNext(Reclaimed(old(events), now), now, ignoreSchedule, row)
      ensures View() == Apply(old(View()), Claim(now, leaseSeconds, ignoreSchedule, row))
      ensures row.Some? ==> nextToken == old(nextToken) + 1
      ensures row.Some? ==> Takeable(old(events), row.value, now, ignoreSchedule)
      ensures forall id :: Takeable(old(events), id, now, ignoreSchedule) ==> row.Some? && row.value <= id
      ensures RowsClaimed(old(events), events, row, old(nextToken), now, now + leaseSeconds)
      ensures tickets == match row
                         case None => old(tickets)
                         case Some(id) =>
                           var ev := old(events[id]);
                           old(tickets)[old(nextToken) := Ticket(id, ev.entity, ev.op, ev.payload, ev.attempts, Held)]
    {
      ghost var s := View();
      events := Reclaimed(events, now);
      row := FirstEligible(now, ignoreSchedule);
      ClaimTakesNext(s, now, leaseSeconds, ignoreSchedule, row);
      hide Takeable, RowsClaimed, ReclaimBlocked, ClaimRow, Reclaimed;
      if row.Some? {
        Lease(row.value, now + leaseSeconds);
      }
    }

    method Lease(id: nat, until: int)
      requires id in events
      modifies this`events, this`tickets, this`nextToken
      ensures View() == ClaimRow(old(View()), id, until)
    {
      var ev := events[id];
      events := events[id := ev.(status := Processing, token := Some(nextToken), lease := until)];
      tickets := tickets[nextToken := Ticket(id, ev.entity, ev.op, ev.payload, ev.attempts, Held)];
      nextToken := nextToken + 1;
    }

    method FirstEligible(now: int, ignoreSchedule: bool) returns (row: Option<nat>)
      requires forall id :: id in events ==> id < nextId
      ensures IsNext(events, now, ignoreSchedule, row)
    {
      row := None;
      var id := 0;
      while id < nextId
        invariant 0 <= id <= nextId
        invariant forall j: nat {:trigger Eligible(events, j, now, ignoreSchedule)} ::
                    j < id ==> !Eligible(events, j, now, ignoreSchedule)
      {
        if Eligible(events, id, now, ignoreSchedule) {
          return Some(id);
        }
        id := id + 1;
      }
    }

    /** _deliver: fence, external call, mark done; or record the failure; or give the row back. */
    method Deliver(t: nat, now: int, fault: Fault, maxAttempts: nat) returns (applied: bool, busy: bool)
      requires t in tickets && tickets[t].phase.Held?
      modifies this`events, this`tickets, this`index
      ensures View() == AttemptState(old(View()), t, now, fault, maxAttempts)
      ensures busy == !gate.Open?
      ensures applied <==> fault.Calm? && Live(old(View()), t, now)
                           && !old(tickets[t].op.Upsert? && tickets[t].payload.text == ""
                                   && (tickets[t].payload.scopeId == "" || tickets[t].entity in store))
      ensures var id, k := old(tickets[t].id), old(tickets[t]);
              old(Live(View(), t, now)) ==>
                && id in events && events == old(events)[id := events[id]]
                && (if applied then events[id].status.Done? && events[id].token.None?
                                    && Served(old(index), index, k.entity, k.op, k.payload,
                                              old(if k.payload.scopeId != "" then Lookup(store, k.entity) else Some(k.payload)))
                    else Retried(old(events[id].(attempts := tickets[t].attempts)), events[id], now, maxAttempts))
                && (fault.RaisesBefore? ==> index == old(index))
      ensures !old(Live(View(), t, now)) ==>
                && index == old(index)
                && events == if busy && old(Leased(t))
                             then old(events[tickets[t].id := events[tickets[t].id].(status := Pending, token := None, lease := 0)])
                             else old(events)
    {
      applied, busy := false, !gate.Open?;
      var k := tickets[t];
      if busy {
        GiveBack(t);
        return;
      }
      if !(Leased(t) && events[k.id].lease > now) {
        tickets := tickets - {t};
        return;
      }
      var current := if k.payload.scopeId != "" then Lookup(store, k.entity) else Some(k.payload);
      var effect := Decide(k.op, k.payload, current);
      hide Served, Retried, FailedRow;
      if fault.RaisesBefore? || effect.Reject? {
        RecordFailure(t, now, maxAttempts);
        return;
      }
      TouchServes(index, k.entity, k.op, k.payload, current);
      index := Touch(index, k.entity, effect);
      if fault.RaisesAfter? {
        RecordFailure(t, now, maxAttempts);
        return;
      }
      events := events[k.id := events[k.id].(status := Done, token := None, lease := 0)];
      tickets := tickets - {t};
      applied := true;
    }

    predicate Leased(t: nat)
      reads this
      requires t in tickets
    {
      var id := tickets[t].id;
      id in events && events[id].status.Processing? && events[id].token == Some(t)
    }

    method GiveBack(t: nat)
      requires t in tickets
      modifies this`events, this`tickets
      ensures tickets == old(tickets) - {t}
      ensures events == if old(Leased(t))
                        then old(events[tickets[t].id := events[tickets[t].id].(status := Pending, token := None, lease := 0)])
                        else old(events)
    {
      if Leased(t) {
        events := events[tickets[t].id := Freed(events[tickets[t].id])];
      }
      tickets := tickets - {t};
    }

    method RecordFailure(t: nat, now: int, maxAttempts: nat)
      requires t in tickets && Leased(t)
      modifies this`events, this`tickets
      ensures tickets == old(tickets) - {t} && old(tickets[t].id) in events
      ensures Retried(old(events[tickets[t].id].(attempts := tickets[t].attempts)), events[old(tickets[t].id)], now, maxAttempts)
      ensures events == old(events[tickets[t].id := FailedRow(events[tickets[t].id], tickets[t].attempts + 1, now, maxAttempts)])
    {
      var k := tickets[t];
      FailedIsRetried(events[k.id].(attempts := k.attempts), now, maxAttempts);
      events := events[k.id := FailedRow(events[k.id], k.attempts + 1, now, maxAttempts)];
      tickets := tickets - {t};
    }

    /** At most `size` claims, each in its own transaction. */
    method ClaimBatch(size: nat, tick: nat, leaseSeconds: nat, ignoreSchedule: bool, clock: nat -> int,
                      ghost maxAttempts: nat, ghost floor: int, ghost ceiling: int)
      returns (rows: seq<nat>, tock: nat)
      requires Inv(View()) && !AnyWriting(View())
      modifies this`events, this`tickets, this`nextToken
      ensures |rows| <= size
      ensures |rows| < size ==> Exhausted(events, clock, ignoreSchedule)
      ensures Claiming(old(View()), View(), rows, maxAttempts)
      ensures Steady(clock, leaseSeconds, floor, ceiling) ==>
                InTime(old(View()), View(), rows, ignoreSchedule, floor, ceiling)
      ensures Steady(clock, leaseSeconds, floor, ceiling) && old(AllDue(View(), [], floor, ignoreSchedule))
              && rows == [] && size > 0 ==>
                PendingCount(View()) == 0
    {
      rows, tock := [], tick;
      ghost var s0, steady := View(), Steady(clock, leaseSeconds, floor, ceiling);
      ClaimingStart(s0, ignoreSchedule, maxAttempts, floor, ceiling);
      hide *;
      while |rows| < size
        invariant |rows| <= size
        invariant Claiming(s0, View(), rows, maxAttempts)
        invariant steady ==> InTime(s0, View(), rows, ignoreSchedule, floor, ceiling)
      {
        var more;
        more, tock := ClaimMore(rows, tock, leaseSeconds, ignoreSchedule, clock, s0, maxAttempts, floor, ceiling);
        if |more| == |rows| { break; }
        rows := more;
      }
    }

    method ClaimMore(rows: seq<nat>, tick: nat, leaseSeconds: nat, ignoreSchedule: bool, clock: nat -> int,
                     ghost s0: State, ghost maxAttempts: nat, ghost floor: int, ghost ceiling: int)
      returns (more: seq<nat>, tock: nat)
      requires Claiming(s0, View(), rows, maxAttempts)
      requires Steady(clock, leaseSeconds, floor, ceiling) ==> InTime(s0, View(), rows, ignoreSchedule, floor, ceiling)
      modifies this`events, this`tickets, this`nextToken
      ensures more == rows || |more| == |rows| + 1
      ensures more == rows ==> Exhausted(events, clock, ignoreSchedule)
      ensures Claiming(s0, View(), more, maxAttempts)
      ensures Steady(clock, leaseSeconds, floor, ceiling) ==> InTime(s0, View(), more, ignoreSchedule, floor, ceiling)
      ensures Steady(clock, leaseSeconds, floor, ceiling) && AllDue(s0, [], floor, ignoreSchedule) && more == [] ==>
                PendingCount(View()) == 0
    {
      hide Inv, IsNext, Reclaimed, AnyWriting, ReclaimBlocked, Claiming, InTime, AllDue, Apply, Steady;
      ghost var s := View();
      ClaimingReady(s0, s, rows, maxAttempts, clock(tick));
      var now := clock(tick);
      var row := ClaimNext(now, leaseSeconds, ignoreSchedule);
      tock := tick + 1;
      more := if row.Some? then rows + [nextToken - 1] else rows;
      if row.None? { NothingLeft(s.events, events, s.nextToken, now, now + leaseSeconds, ignoreSchedule); }
      ghost var step := Claim(now, leaseSeconds, ignoreSchedule, row);
      ClaimingStep(s0, s, View(), rows, step, maxAttempts);
      if Steady(clock, leaseSeconds, floor, ceiling) {
        SteadyAt(clock, leaseSeconds, floor, ceiling, tick);
        InTimeStep(s0, s, View(), rows, step, maxAttempts, floor, ceiling);
      }
    }

    /** One row of a batch of which `n` are done. */
    method DeliverNext(rows: seq<nat>, n: nat, tick: nat, maxAttempts: nat, clock: nat -> int, fault: nat -> Fault,
                       ghost s0: State, ghost settled: nat, ghost ignoreSchedule: bool, ghost leaseSeconds: nat, ghost floor: int,
                       ghost ceiling: int)
      returns (applied: bool, busy: bool)
      requires n < |rows| && Delivering(s0, View(), rows[n..]) && Counted(s0, View(), settled)
      requires InStep(s0, View(), rows[n..], n, Steady(clock, leaseSeconds, floor, ceiling), maxAttempts, ceiling)
      modifies this`events, this`tickets, this`index
      ensures Delivering(s0, View(), rows[n + 1..])
      ensures busy == !gate.Open? && (applied ==> !busy)
      ensures InStep(s0, View(), rows[n + 1..], n + 1, Steady(clock, leaseSeconds, floor, ceiling), maxAttempts, ceiling)
      ensures Counted(s0, View(), settled + if applied then 1 else 0)
      ensures s0.gate.Open? && Steady(clock, leaseSeconds, floor, ceiling) && fault(tick).Calm? ==>
                applied && (old(Settling(s0, View(), rows[n..], n, ignoreSchedule, floor)) ==>
                              Settling(s0, View(), rows[n + 1..], n + 1, ignoreSchedule, floor))
    {
      hide Inv, AttemptState, Leases, Steady, Progress, Settling, AnyWriting, PendingCount;
      ghost var s, now := View(), clock(tick);
      assert rows[n..][1..] == rows[n + 1..];
      applied, busy := Deliver(rows[n], clock(tick), fault(tick), maxAttempts);
      DeliveringStep(s0, s, View(), rows[n..], now, fault(tick), maxAttempts);
      AttemptCounts(s, rows[n], now, fault(tick), maxAttempts);
      if s0.gate.Open? && Steady(clock, leaseSeconds, floor, ceiling) {
        SteadyAt(clock, leaseSeconds, floor, ceiling, tick);
        ProgressStep(s0, s, View(), rows[n..], n, now, fault(tick), maxAttempts, ceiling);
        LiveAttempt(s, rows[n], now, fault(tick), maxAttempts);
        if fault(tick).Calm? && Settling(s0, s, rows[n..], n, ignoreSchedule, floor) {
          SettlingStep(s0, s, View(), rows[n..], n, now, maxAttempts, ignoreSchedule, floor);
        }
      }
    }

    method DeliverBatch(rows: seq<nat>, tick: nat, maxAttempts: nat, clock: nat -> int, fault: nat -> Fault,
                        ghost ignoreSchedule: bool, ghost leaseSeconds: nat, ghost floor: int, ghost ceiling: int)
      returns (applied: nat, failed: nat, raised: bool, tock: nat)
      requires Delivering(View(), View(), rows)
      requires Steady(clock, leaseSeconds, floor, ceiling) ==> Leases(View(), rows, ceiling)
      modifies this`events, this`tickets, this`index
      ensures Delivering(old(View()), View(), [])
      ensures raised <==> rows != [] && !gate.Open?
      ensures applied + failed == if raised then 0 else |rows|
      ensures Counted(old(View()), View(), applied)
      ensures gate.Open? && Steady(clock, leaseSeconds, floor, ceiling) ==>
                Work(events, nextId, maxAttempts) + |rows| <= Work(old(events), nextId, maxAttempts)
      ensures gate.Open? && Steady(clock, leaseSeconds, floor, ceiling) && (forall i :: fault(i).Calm?)
              && old(AllDue(View(), rows, floor, ignoreSchedule)) ==>
                failed == 0 && AllDue(View(), [], floor, ignoreSchedule)
                && PendingCount(View()) + |rows| == PendingCount(old(View()))
    {
      applied, failed, raised, tock := 0, 0, false, tick;
      ghost var s0, steady := View(), Steady(clock, leaseSeconds, floor, ceiling);
      assert Counted(s0, s0, 0);
      assert rows[0..] == rows && rows[|rows|..] == [];
      DeliveringStart(s0, rows, steady, maxAttempts, ceiling);
      assert steady ==> Leases(s0, rows, ceiling);
      assert AllDue(s0, rows, floor, ignoreSchedule) ==> Settling(s0, s0, rows, 0, ignoreSchedule, floor);
      hide *;
      for i := 0 to |rows|
        invariant Delivering(s0, View(), rows[i..])
        invariant InStep(s0, View(), rows[i..], i, steady, maxAttempts, ceiling)
        invariant s0.gate.Open? && steady && (forall j :: fault(j).Calm?) && AllDue(s0, rows, floor, ignoreSchedule) ==>
                    failed == 0 && Settling(s0, View(), rows[i..], i, ignoreSchedule, floor)
        invariant applied + failed == i && Counted(s0, View(), applied)
        invariant i > 0 ==> gate.Open?
      {
        var ok, busy := DeliverNext(rows, i, tock, maxAttempts, clock, fault,
                                    s0, applied, ignoreSchedule, leaseSeconds, floor, ceiling);
        DeliveringEnd(s0, View(), rows[i + 1..]);
        if busy { raised := true; return; }
        if ok { applied := applied + 1; } else { failed := failed + 1; }
        tock := tock + 1;
      }
      DeliveringEnd(s0, View(), []);
      SettlingEnd(s0, View(), |rows|, ignoreSchedule, floor);
      if s0.gate.Open? && steady {
        ProgressEnd(s0, View(), |rows|, maxAttempts, ceiling);
      }
    }

    /** One turn of the loop: claim a batch, deliver it. */
    method DrainBatch(size: nat, tick: nat, maxAttempts: nat, ignoreSchedule: bool, leaseSeconds: nat, clock: nat -> int,
                      fault: nat -> Fault, ghost floor: int, ghost ceiling: int)
      returns (count: nat, applied: nat, failed: nat, raised: bool, tock: nat)
      requires Idle(View())
      modifies this`events, this`tickets, this`nextToken, this`index
      ensures Idle(View())
      ensures count <= size && applied + failed == if raised then 0 else count
      ensures PendingCount(View()) + applied == PendingCount(old(View()))
      ensures count == 0 < size ==> Exhausted(events, clock, ignoreSchedule)
      ensures raised ==> !gate.Open?
      ensures gate.Open? && Steady(clock, leaseSeconds, floor, ceiling) ==>
                Work(events, nextId, maxAttempts) + count <= Work(old(events), nextId, maxAttempts)
      ensures gate.Open? && Steady(clock, leaseSeconds, floor, ceiling) && (forall i :: fault(i).Calm?)
              && old(AllDue(View(), [], floor, ignoreSchedule)) ==>
                && failed == 0 && AllDue(View(), [], floor, ignoreSchedule)
                && PendingCount(View()) + count == PendingCount(old(View()))
                && (count == 0 < size ==> PendingCount(View()) == 0)
    {
      ghost var s0, steady := View(), Steady(clock, leaseSeconds, floor, ceiling);
      hide Inv, AnyWriting, Claiming, InTime, Leases, Delivering, Steady, Work, AllDue, PendingCount;
      var rows;
      rows, tock := ClaimBatch(size, tick, leaseSeconds, ignoreSchedule, clock, maxAttempts, floor, ceiling);
      ghost var s1 := View();
      ClaimedReady(s0, s1, rows, maxAttempts);
      if steady {
        ClaimedInTime(s0, s1, rows, ignoreSchedule, floor, ceiling);
      }
      if rows == [] {
        count, applied, failed, raised := 0, 0, 0, false;
        DeliveredIdle(s1, s1);
        return;
      }
      applied, failed, raised, tock :=
        DeliverBatch(rows, tock, maxAttempts, clock, fault, ignoreSchedule, leaseSeconds, floor, ceiling);
      DeliveredIdle(s1, View());
      count := |rows|;
    }

    /** drain: at most `limit` attempts; within one lease every attempt lowers the work left; and with every row due, no
        faults and a large enough limit, nothing is left outstanding and the index serves the store. */
    method Drain(limit: nat, maxAttempts: nat, ignoreSchedule: bool, leaseSeconds: nat, batchSize: nat,
                 clock: nat -> int, fault: nat -> Fault, ghost floor: int, ghost ceiling: int)
      returns (applied: nat, failed: nat, raised: bool)
      requires Idle(View())
      modifies this`events, this`tickets, this`nextToken, this`index
      ensures Idle(View())
      ensures applied + failed <= limit && PendingCount(View()) + applied == PendingCount(old(View()))
      ensures raised ==> !gate.Open?
      ensures !raised && 0 < batchSize ==> applied + failed == limit || Exhausted(events, clock, ignoreSchedule)
      ensures gate.Open? && Steady(clock, leaseSeconds, floor, ceiling) ==>
                Work(events, nextId, maxAttempts) + applied + failed <= Work(old(events), nextId, maxAttempts)
      ensures gate.Open? && Steady(clock, leaseSeconds, floor, ceiling) && (forall i :: fault(i).Calm?) && 0 < batchSize
              && old(AllDue(View(), [], floor, ignoreSchedule)) && old(PendingCount(View())) <= limit ==>
                && failed == 0 && applied == old(PendingCount(View())) && PendingCount(View()) == 0
                && forall e :: e in store ==> e in index && index[e] == store[e]
    {
      applied, failed, raised := 0, 0, false;
      ghost var s0, steady := View(), Steady(clock, leaseSeconds, floor, ceiling);
      ghost var smooth := gate.Open? && steady && (forall i :: fault(i).Calm?) && 0 < batchSize
                          && AllDue(s0, [], floor, ignoreSchedule);
      hide Idle, Steady, Work, AllDue, PendingCount;
      var remaining, tick, count := limit, 0, 1;
      while remaining > 0 && count > 0
        invariant Idle(View()) && !raised
        invariant applied + failed + remaining == limit && PendingCount(View()) + applied == PendingCount(s0)
        invariant count == 0 < batchSize ==> Exhausted(events, clock, ignoreSchedule)
        invariant gate.Open? && steady ==>
                    Work(events, nextId, maxAttempts) + applied + failed <= Work(old(events), nextId, maxAttempts)
        invariant smooth ==>
                    && failed == 0 && AllDue(View(), [], floor, ignoreSchedule)
                    && PendingCount(View()) + applied == PendingCount(s0)
                    && (count == 0 ==> PendingCount(View()) == 0)
      {
        var size := if batchSize < remaining then batchSize else remaining;
        var a, f;
        count, a, f, raised, tick :=
          DrainBatch(size, tick, maxAttempts, ignoreSchedule, leaseSeconds, clock, fault, floor, ceiling);
        if raised { break; }
        applied, failed, remaining := applied + a, failed + f, remaining - count;
      }
      if PendingCount(View()) == 0 {
        DrainedIdle(View());
      }
    }
  }
}
