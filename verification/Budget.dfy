/**
 The monthly cost ceiling: reserve before a provider call, log the call and reconcile after it (jobs.py, judge.py), with
 the recovery of abandoned jobs running at any moment. Money is exact; a period is a UTC month.
 */
module Budget {
  import opened Options

  datatype Period = Period(year: int, month: int)

  datatype Status = Active | Reconciled | Released

  /** A row of budget_reservations, and whether the call it was made for may still be logged. */
  datatype Reservation = Reservation(period: Period, amount: real, hasJob: bool, status: Status, open: bool)

  /** A row of judge_runs: the period it counts in, and the one its reservation was made in. */
  datatype Charge = Charge(period: Period, cost: real, reservedIn: Period)

  datatype State = State(
    reservations: seq<Reservation>,
    charges: seq<Charge>,
    losses: seq<Charge>)        // amounts released while their call was in flight

  datatype Step =
    | Reserve(period: Period, amount: real, limit: real, hasJob: bool)
    | Refund(id: nat)                                  // no provider call was granted
    | Log(id: nat, period: Period, cost: real)         // judge: whatever the reservation's status
    | LogMerge(id: nat, period: Period, cost: real)    // consolidation: rolled back unless still active
    | Abandon(id: nat)                                 // the caller is gone and will log nothing
    | Recover(ids: set<nat>)                           // reservations of jobs that no longer run

  const Initial := State([], [], [])

  datatype Part = Reserved | InFlight

  function Share(r: Reservation, period: Period, part: Part): real {
    if r.period != period then 0.0
    else match part
      case Reserved => if r.status.Active? then r.amount else 0.0
      case InFlight => if r.status.Released? && r.open then r.amount else 0.0
  }

  function Total(rs: seq<Reservation>, period: Period, part: Part): real {
    if rs == [] then 0.0 else Share(rs[0], period, part) + Total(rs[1..], period, part)
  }

  function Spent(charges: seq<Charge>, period: Period): real {
    if charges == [] then 0.0
    else
      var last := charges[|charges| - 1];
      Spent(charges[..|charges| - 1], period) + if last.period == period then last.cost else 0.0
  }

  /** Spend that a reservation of another period was made for. */
  function Carried(charges: seq<Charge>, period: Period): real {
    if charges == [] then 0.0
    else
      var last := charges[|charges| - 1];
      Carried(charges[..|charges| - 1], period) + if last.period == period && last.reservedIn != period then last.cost else 0.0
  }

  predicate Recoverable(r: Reservation) {
    r.status.Active? && r.hasJob
  }

  function Recovered(rs: seq<Reservation>, ids: set<nat>): seq<Reservation> {
    seq(|rs|, i requires 0 <= i < |rs| => if i in ids && Recoverable(rs[i]) then rs[i].(status := Released) else rs[i])
  }

  /** A recovery releases the active reservations of the jobs it recovers, and touches no other: none that a caller without a
      job made, and none that was settled. */
  lemma RecoveryReleases(s: State, ids: set<nat>, id: nat)
    requires id < |s.reservations|
    ensures var r, r' := s.reservations[id], Apply(s, Recover(ids)).reservations;
            && |r'| == |s.reservations| && Apply(s, Recover(ids)).charges == s.charges
            && r'[id] == if id in ids && r.hasJob && r.status == Active then r.(status := Released) else r
  {
  }

  /** What a recovery releases while the call is still out. */
  function Losses(rs: seq<Reservation>, ids: set<nat>): seq<Charge> {
    if rs == [] then []
    else
      var last := |rs| - 1;
      Losses(rs[..last], ids)
      + if last in ids && Recoverable(rs[last]) && rs[last].open
        then [Charge(rs[last].period, rs[last].amount, rs[last].period)] else []
  }

  function Apply(s: State, step: Step): State {
    match step
    case Reserve(period, amount, limit, hasJob) =>
      if amount < 0.0 || Spent(s.charges, period) + Total(s.reservations, period, Reserved) + amount > limit then s
      else s.(reservations := s.reservations + [Reservation(period, amount, hasJob, Active, true)])
    case Refund(id) =>
      if id >= |s.reservations| || !s.reservations[id].open then s
      else
        var r := s.reservations[id];
        s.(reservations := s.reservations[id := r.(open := false, status := if r.status.Active? then Released else r.status)])
    case Log(id, period, cost) =>
      if id >= |s.reservations| || !s.reservations[id].open then s
      else Logged(s, id, period, cost)
    case LogMerge(id, period, cost) =>
      if id >= |s.reservations| || !s.reservations[id].open then s
      else if !s.reservations[id].status.Active? then Closed(s, id)
      else Logged(s, id, period, cost)
    case Abandon(id) => if id >= |s.reservations| then s else Closed(s, id)
    case Recover(ids) =>
      s.(reservations := Recovered(s.reservations, ids), losses := s.losses + Losses(s.reservations, ids))
  }

  function Closed(s: State, id: nat): State
    requires id < |s.reservations|
  {
    s.(reservations := s.reservations[id := s.reservations[id].(open := false)])
  }

  function Logged(s: State, id: nat, period: Period, cost: real): State
    requires id < |s.reservations|
  {
    var r := s.reservations[id];
    s.(charges := s.charges + [Charge(period, cost, r.period)],
       reservations := s.reservations[id := r.(status := Reconciled, open := false)])
  }

  function Run(s: State, steps: seq<Step>): State
    decreases |steps|
  {
    if steps == [] then s else Run(Apply(s, steps[0]), steps[1..])
  }

  /** A logged cost is nonnegative, and in its reservation's own period at most the reservation. */
  predicate Priced(s: State, step: Step) {
    (step.Log? || step.LogMerge?) && step.id < |s.reservations| ==>
      0.0 <= step.cost && (step.period == s.reservations[step.id].period ==> step.cost <= s.reservations[step.id].amount)
  }

  predicate AllPriced(s: State, steps: seq<Step>)
    decreases |steps|
  {
    steps != [] ==> Priced(s, steps[0]) && AllPriced(Apply(s, steps[0]), steps[1..])
  }

  // ---- sums ----

  lemma {:induction false} TotalUpdate(rs: seq<Reservation>, id: nat, r: Reservation, period: Period, part: Part)
    requires id < |rs|
    ensures Total(rs[id := r], period, part) == Total(rs, period, part) - Share(rs[id], period, part) + Share(r, period, part)
  {
    if id > 0 {
      assert rs[id := r][1..] == rs[1..][id - 1 := r];
      TotalUpdate(rs[1..], id - 1, r, period, part);
    } else {
      assert rs[id := r][1..] == rs[1..];
    }
  }

  lemma {:induction false} TotalAppend(rs: seq<Reservation>, r: Reservation, period: Period, part: Part)
    ensures Total(rs + [r], period, part) == Total(rs, period, part) + Share(r, period, part)
  {
    if rs != [] {
      assert (rs + [r])[1..] == rs[1..] + [r];
      TotalAppend(rs[1..], r, period, part);
    }
  }

  lemma SpentAppend(charges: seq<Charge>, c: Charge, period: Period)
    ensures Spent(charges + [c], period) == Spent(charges, period) + if c.period == period then c.cost else 0.0
    ensures Carried(charges + [c], period)
            == Carried(charges, period) + if c.period == period && c.reservedIn != period then c.cost else 0.0
  {
    assert (charges + [c])[..|charges|] == charges;
  }

  lemma {:induction false} SpentConcat(a: seq<Charge>, b: seq<Charge>, period: Period)
    ensures Spent(a + b, period) == Spent(a, period) + Spent(b, period)
  {
    if b == [] {
      assert a + b == a;
    } else {
      var front, last := b[..|b| - 1], b[|b| - 1];
      assert a + b == (a + front) + [last];
      SpentAppend(a + front, last, period);
      SpentConcat(a, front, period);
    }
  }

  /** A recovery moves money from the reserved to the in-flight, or gives it back; what it moves it records. */
  lemma {:induction false} RecoverTotals(rs: seq<Reservation>, ids: set<nat>, period: Period)
    requires forall i :: 0 <= i < |rs| ==> rs[i].amount >= 0.0
    ensures Total(Recovered(rs, ids), period, InFlight) == Total(rs, period, InFlight) + Spent(Losses(rs, ids), period)
    ensures Total(Recovered(rs, ids), period, Reserved) + Total(Recovered(rs, ids), period, InFlight)
            <= Total(rs, period, Reserved) + Total(rs, period, InFlight)
    ensures Spent(Losses(rs, ids), period) >= 0.0
  {
    if rs != [] {
      var last, front := |rs| - 1, rs[..|rs| - 1];
      assert rs == front + [rs[last]];
      assert Recovered(rs, ids) == Recovered(front, ids) + [Recovered(rs, ids)[last]];
      RecoverTotals(front, ids, period);
      TotalAppend(front, rs[last], period, Reserved);
      TotalAppend(front, rs[last], period, InFlight);
      TotalAppend(Recovered(front, ids), Recovered(rs, ids)[last], period, Reserved);
      TotalAppend(Recovered(front, ids), Recovered(rs, ids)[last], period, InFlight);
      var lost := Charge(rs[last].period, rs[last].amount, rs[last].period);
      assert Losses(rs, ids) == Losses(front, ids) + if last in ids && Recoverable(rs[last]) && rs[last].open then [lost] else [];
      SpentAppend(Losses(front, ids), lost, period);
      assert Losses(front, ids) + [] == Losses(front, ids);
    }
  }

  // ---- the law ----

  ghost predicate Inv(s: State, period: Period, ceiling: real) {
    && (forall i :: 0 <= i < |s.reservations| ==> s.reservations[i].amount >= 0.0)
    && (forall i :: 0 <= i < |s.reservations| && s.reservations[i].status.Reconciled? ==> !s.reservations[i].open)
    && Total(s.reservations, period, InFlight) <= Spent(s.losses, period)
    && 0.0 <= Carried(s.charges, period)
    && Spent(s.charges, period) + Total(s.reservations, period, Reserved) + Total(s.reservations, period, InFlight)
       <= ceiling + Spent(s.losses, period) + Carried(s.charges, period)
  }

  lemma ReserveKeeps(s: State, step: Step, period: Period, ceiling: real)
    requires Inv(s, period, ceiling) && step.Reserve? && step.limit <= ceiling
    ensures Inv(Apply(s, step), period, ceiling)
  {
    hide Total, Spent, Carried;
    var r := Reservation(step.period, step.amount, step.hasJob, Active, true);
    TotalAppend(s.reservations, r, period, Reserved);
    TotalAppend(s.reservations, r, period, InFlight);
  }

  lemma RecoverKeeps(s: State, ids: set<nat>, period: Period, ceiling: real)
    requires Inv(s, period, ceiling)
    ensures Inv(Apply(s, Recover(ids)), period, ceiling)
  {
    hide Total, Spent, Carried, Losses;
    RecoverTotals(s.reservations, ids, period);
    SpentConcat(s.losses, Losses(s.reservations, ids), period);
  }

  /** Closing one reservation, with a charge that its own period's share covers. */
  lemma SettleKeeps(s: State, s': State, id: nat, r: Reservation, charge: Option<Charge>, period: Period, ceiling: real)
    requires Inv(s, period, ceiling) && id < |s.reservations|
    requires var was := s.reservations[id];
             && r.period == was.period && r.amount == was.amount && !r.open
             && (r.status == was.status || !r.status.Active?)
             && (charge.Some? ==> was.open && !r.status.Active? && charge.value.reservedIn == was.period && charge.value.cost >= 0.0
                                  && (charge.value.period == was.period ==> charge.value.cost <= was.amount))
    requires s' == s.(reservations := s.reservations[id := r],
                      charges := if charge.Some? then s.charges + [charge.value] else s.charges)
    ensures Inv(s', period, ceiling)
  {
    hide Total, Spent, Carried;
    TotalUpdate(s.reservations, id, r, period, Reserved);
    TotalUpdate(s.reservations, id, r, period, InFlight);
    if charge.Some? {
      SpentAppend(s.charges, charge.value, period);
    }
  }

  lemma StepKeeps(s: State, step: Step, period: Period, ceiling: real)
    requires Inv(s, period, ceiling) && Priced(s, step)
    requires step.Reserve? ==> step.limit <= ceiling
    ensures Inv(Apply(s, step), period, ceiling)
  {
    var s' := Apply(s, step);
    if step.Recover? {
      RecoverKeeps(s, step.ids, period, ceiling);
    } else if step.Reserve? {
      ReserveKeeps(s, step, period, ceiling);
    } else if s' != s {
      hide Inv;
      var charge := if s'.charges == s.charges then None
                    else Some(Charge(step.period, step.cost, s.reservations[step.id].period));
      SettleKeeps(s, s', step.id, s'.reservations[step.id], charge, period, ceiling);
    }
  }

  lemma {:induction false} RunKeeps(s: State, steps: seq<Step>, period: Period, ceiling: real)
    requires Inv(s, period, ceiling) && AllPriced(s, steps)
    requires forall step :: step in steps && step.Reserve? ==> step.limit <= ceiling
    ensures Inv(Run(s, steps), period, ceiling)
    decreases |steps|
  {
    if steps != [] {
      StepKeeps(s, steps[0], period, ceiling);
      RunKeeps(Apply(s, steps[0]), steps[1..], period, ceiling);
    }
  }

  /** Conservation: spend, reservations and in-flight released calls of a period never exceed the ceiling by more than
      what recovery ever released under a call in flight and what calls reserved in other periods cost in this one. */
  lemma CorrectedCeiling(steps: seq<Step>, period: Period, ceiling: real)
    requires 0.0 <= ceiling && AllPriced(Initial, steps)
    requires forall step :: step in steps && step.Reserve? ==> step.limit <= ceiling
    ensures var s := Run(Initial, steps);
            Spent(s.charges, period) + Total(s.reservations, period, Reserved) + Total(s.reservations, period, InFlight)
            <= ceiling + Spent(s.losses, period) + Carried(s.charges, period)
  {
    RunKeeps(Initial, steps, period, ceiling);
  }

  // ---- exactly when the plain ceiling holds ----

  function Committed(s: State, period: Period): real {
    Spent(s.charges, period) + Total(s.reservations, period, Reserved)
  }

  /** A call that may still be logged although no active reservation of this period covers it. */
  predicate Uncovered(r: Reservation, period: Period) {
    r.open && if r.period == period then r.status.Released? && r.amount > 0.0 else true
  }

  predicate Exposed(s: State, period: Period) {
    exists id :: 0 <= id < |s.reservations| && Uncovered(s.reservations[id], period)
  }

  /** From here on recovery spares calls in flight, and reservations are made in this period under this ceiling. */
  predicate Quiet(s: State, steps: seq<Step>, period: Period, ceiling: real)
    decreases |steps|
  {
    steps != [] ==>
      && Priced(s, steps[0])
      && (steps[0].Recover? ==> forall id :: id in steps[0].ids && id < |s.reservations| ==> !s.reservations[id].open)
      && (steps[0].Reserve? ==> steps[0].limit <= ceiling && steps[0].period == period)
      && Quiet(Apply(s, steps[0]), steps[1..], period, ceiling)
  }

  /** No quiet continuation can push spend plus active reservations over the ceiling. */
  ghost predicate CeilingSafe(s: State, period: Period, ceiling: real) {
    forall steps: seq<Step> {:trigger Quiet(s, steps, period, ceiling)} ::
      Quiet(s, steps, period, ceiling) ==> Committed(Run(s, steps), period) <= ceiling
  }

  /** Amounts are not negative, and a reconciled call is over. */
  predicate Sound(s: State) {
    && (forall i :: 0 <= i < |s.reservations| ==> s.reservations[i].amount >= 0.0)
    && (forall i :: 0 <= i < |s.reservations| && s.reservations[i].status.Reconciled? ==> !s.reservations[i].open)
  }

  lemma {:induction false} RecoverQuietly(rs: seq<Reservation>, ids: set<nat>, period: Period)
    requires forall i :: 0 <= i < |rs| ==> rs[i].amount >= 0.0
    requires forall id :: id in ids && id < |rs| ==> !rs[id].open
    ensures Total(Recovered(rs, ids), period, Reserved) <= Total(rs, period, Reserved)
  {
    if rs != [] {
      var last, front := |rs| - 1, rs[..|rs| - 1];
      assert rs == front + [rs[last]];
      assert Recovered(rs, ids) == Recovered(front, ids) + [Recovered(rs, ids)[last]];
      RecoverQuietly(front, ids, period);
      TotalAppend(front, rs[last], period, Reserved);
      TotalAppend(Recovered(front, ids), Recovered(rs, ids)[last], period, Reserved);
    }
  }

  lemma QuietRecover(s: State, ids: set<nat>, period: Period, ceiling: real)
    requires Sound(s) && Committed(s, period) <= ceiling && !Exposed(s, period)
    requires forall id :: id in ids && id < |s.reservations| ==> !s.reservations[id].open
    ensures var s' := Apply(s, Recover(ids)); Sound(s') && Committed(s', period) <= ceiling && !Exposed(s', period)
  {
    hide Total, Spent, Losses;
    RecoverQuietly(s.reservations, ids, period);
  }

  lemma QuietReserve(s: State, step: Step, period: Period, ceiling: real)
    requires Sound(s) && Committed(s, period) <= ceiling && !Exposed(s, period)
    requires step.Reserve? && step.limit <= ceiling && step.period == period
    ensures var s' := Apply(s, step); Sound(s') && Committed(s', period) <= ceiling && !Exposed(s', period)
  {
    hide Total, Spent;
    TotalAppend(s.reservations, Reservation(step.period, step.amount, step.hasJob, Active, true), period, Reserved);
  }

  predicate Settles(step: Step) {
    step.Refund? || step.Log? || step.LogMerge? || step.Abandon?
  }

  lemma QuietSettle(s: State, step: Step, s': State, period: Period, ceiling: real)
    requires Sound(s) && Committed(s, period) <= ceiling && !Exposed(s, period)
    requires Settles(step) && Priced(s, step) && s' == Apply(s, step) && s' != s
    ensures Sound(s') && Committed(s', period) <= ceiling && !Exposed(s', period)
  {
    hide Total, Spent;
    var was, now := s.reservations[step.id], s'.reservations[step.id];
    assert !Uncovered(was, period) && !now.open && s'.reservations == s.reservations[step.id := now];
    TotalUpdate(s.reservations, step.id, now, period, Reserved);
    if s'.charges != s.charges {
      SpentAppend(s.charges, Charge(step.period, step.cost, was.period), period);
    }
    assert forall id :: 0 <= id < |s.reservations| && Uncovered(s'.reservations[id], period) ==>
             Uncovered(s.reservations[id], period);
  }

  lemma QuietStep(s: State, step: Step, period: Period, ceiling: real)
    requires Sound(s) && Committed(s, period) <= ceiling && !Exposed(s, period) && Quiet(s, [step], period, ceiling)
    ensures Sound(Apply(s, step)) && Committed(Apply(s, step), period) <= ceiling && !Exposed(Apply(s, step), period)
  {
    hide Sound, Committed, Exposed;
    if step.Recover? {
      QuietRecover(s, step.ids, period, ceiling);
    } else if step.Reserve? {
      QuietReserve(s, step, period, ceiling);
    } else if Apply(s, step) != s {
      QuietSettle(s, step, Apply(s, step), period, ceiling);
    }
  }

  lemma {:induction false} QuietRun(s: State, steps: seq<Step>, period: Period, ceiling: real)
    requires Sound(s) && Committed(s, period) <= ceiling && !Exposed(s, period) && Quiet(s, steps, period, ceiling)
    ensures Committed(Run(s, steps), period) <= ceiling
    decreases |steps|
  {
    if steps != [] {
      assert [steps[0]][1..] == [];
      QuietStep(s, steps[0], period, ceiling);
      QuietRun(Apply(s, steps[0]), steps[1..], period, ceiling);
    }
  }

  /** One uncovered call is enough: fill the room that is left, then log it. */
  lemma Overshoot(s: State, id: nat, period: Period, ceiling: real) returns (steps: seq<Step>)
    requires Sound(s) && Committed(s, period) <= ceiling && id < |s.reservations| && Uncovered(s.reservations[id], period)
    ensures Quiet(s, steps, period, ceiling) && Committed(Run(s, steps), period) > ceiling
  {
    hide Total, Spent;
    var r := s.reservations[id];
    var cost := if r.period == period then r.amount else 1.0;
    var fill := Reserve(period, ceiling - Committed(s, period), ceiling, false);
    var log := Log(id, period, cost);
    var full := Apply(s, fill);
    TotalAppend(s.reservations, full.reservations[|s.reservations|], period, Reserved);
    var over := Apply(full, log);
    TotalUpdate(full.reservations, id, over.reservations[id], period, Reserved);
    SpentAppend(full.charges, Charge(period, cost, r.period), period);
    steps := [fill, log];
    assert steps[1..] == [log] && [log][1..] == [];
    assert Quiet(over, [], period, ceiling) && Quiet(full, [log], period, ceiling);
    assert Run(full, [log]) == Run(over, []);
  }

  lemma ReleasedIsExposed(s: State, period: Period)
    requires s.reservations == [Reservation(period, 1.0, true, Released, true)] && s.charges == []
    ensures Sound(s) && Committed(s, period) == 0.0 && Exposed(s, period)
  {
    assert s.reservations[..0] == [] && s.reservations[1..] == [];
    assert Total(s.reservations, period, Reserved) == Share(s.reservations[0], period, Reserved) + Total([], period, Reserved);
    assert Spent(s.charges, period) == 0.0;
    assert Uncovered(s.reservations[0], period);
  }

  /** Such a state is two steps away: a job reserves its whole ceiling, and is recovered while its call is out. */
  lemma ExposureReachable(period: Period)
    ensures var s := Run(Initial, [Reserve(period, 1.0, 1.0, true), Recover({0})]);
            Sound(s) && Committed(s, period) == 0.0 && Exposed(s, period)
  {
    var reserve, recover := Reserve(period, 1.0, 1.0, true), Recover({0});
    var a := Apply(Initial, reserve);
    var s := Apply(a, recover);
    assert [reserve, recover][1..] == [recover] && [recover][1..] == [];
    assert Run(Initial, [reserve, recover]) == Run(a, [recover]) == Run(s, []) == s;
    assert a.reservations == [Reservation(period, 1.0, true, Active, true)] && a.charges == [];
    assert s.reservations == [Reservation(period, 1.0, true, Released, true)] && s.charges == [];
    hide *;
    ReleasedIsExposed(s, period);
  }

  /** Spend plus active reservations stay under the ceiling in every quiet continuation if and only if no call is out
      whose reservation was released under it or was made in another period. */
  lemma PlainCeilingExactly(s: State, period: Period, ceiling: real)
    requires Sound(s) && Committed(s, period) <= ceiling
    ensures CeilingSafe(s, period, ceiling) <==> !Exposed(s, period)
  {
    if Exposed(s, period) {
      var id :| 0 <= id < |s.reservations| && Uncovered(s.reservations[id], period);
      var steps := Overshoot(s, id, period, ceiling);
    } else {
      forall steps: seq<Step> | Quiet(s, steps, period, ceiling)
        ensures Committed(Run(s, steps), period) <= ceiling
      {
        QuietRun(s, steps, period, ceiling);
      }
    }
  }

  lemma SoundStep(s: State, step: Step)
    requires Sound(s)
    ensures Sound(Apply(s, step))
  {
  }

  /** Every reachable state is sound, so the equivalence speaks of all of them. */
  lemma {:induction false} ReachableSound(s: State, steps: seq<Step>)
    requires Sound(s)
    ensures Sound(Run(s, steps))
    decreases |steps|
  {
    if steps != [] {
      SoundStep(s, steps[0]);
      ReachableSound(Apply(s, steps[0]), steps[1..]);
    }
  }

  // ---- pricing ----

  datatype Date = Date(year: int, month: int, day: int)

  function PeriodOf(date: Date): Period {
    Period(date.year, date.month)
  }

  predicate ValidDate(date: Date) {
    1 <= date.month <= 12 && 1 <= date.day <= 31
  }

  /** Dollars per million tokens, in and out. */
  datatype Price = Price(input: real, output: real)

  datatype Model = Model(price: Price, after: Option<Price>)

  const MODELS: map<string, Model> := map[
    "gemini-3.5-flash-lite" := Model(Price(0.30, 2.50), None),
    "gemini-3.1-flash-lite" := Model(Price(0.30, 2.50), None),
    "gemini-3-flash-preview" := Model(Price(0.30, 2.50), None),
    "gemini-3.5-flash" := Model(Price(0.60, 3.50), None),
    "claude-haiku-4-5" := Model(Price(1.00, 5.00), None),
    "claude-sonnet-5" := Model(Price(2.00, 10.00), Some(Price(3.00, 15.00))),
    "claude-opus-5" := Model(Price(5.00, 25.00), None)]

  const DEAREST := Price(5.00, 25.00)

  /** Later than the last day of the introductory rates, 31 August 2026. */
  predicate IntroOver(date: Date) {
    date.year > 2026 || (date.year == 2026 && (date.month > 8 || (date.month == 8 && date.day > 31)))
  }

  /** An unknown model is priced as the dearest known one. */
  function PricePerMtok(model: string, date: Date): Price {
    if model !in MODELS then DEAREST
    else if MODELS[model].after.Some? && IntroOver(date) then MODELS[model].after.value
    else MODELS[model].price
  }

  function TokenCost(tokens: nat, perMtok: real): real {
    tokens as real * perMtok / 1000000.0
  }

  function CostOf(input: nat, output: nat, model: string, date: Date): real {
    var price := PricePerMtok(model, date);
    TokenCost(input, price.input) + TokenCost(output, price.output)
  }

  /** What came back from a provider: its token counts, and whether it failed without certainly not billing. */
  datatype Outcome = Outcome(input: nat, output: nat, failed: bool, unbilled: bool)

  /** The cost written to the run row; `estimate` is the input estimate the reservation was made on. */
  function LoggedCost(estimate: nat, outcome: Outcome, model: string, date: Date): real {
    if outcome.failed && outcome.input == 0 && outcome.output == 0 then
      if outcome.unbilled then 0.0 else CostOf(estimate, 0, model, date)
    else CostOf(outcome.input, outcome.output, model, date)
  }

  /** A counted or successful call costs its tokens at their prices per million; one that failed without counts costs nothing
      if it was surely not billed, and otherwise the estimated input, which is something for a nonempty estimate. */
  lemma CostOfOutcome(estimate: nat, outcome: Outcome, model: string, date: Date)
    ensures var price, cost := PricePerMtok(model, date), LoggedCost(estimate, outcome, model, date);
            && price.input > 0.0 && price.output > 0.0
            && (!outcome.failed || outcome.input > 0 || outcome.output > 0 ==>
                  1000000.0 * cost == outcome.input as real * price.input + outcome.output as real * price.output)
            && (outcome.failed && outcome.input == 0 && outcome.output == 0 ==>
                  if outcome.unbilled then cost == 0.0
                  else 1000000.0 * cost == estimate as real * price.input && (estimate > 0 ==> cost > 0.0))
  {
    var price := PricePerMtok(model, date);
    assert price.input > 0.0 && price.output > 0.0;
    hide PricePerMtok;
    Millionth(outcome.input, price.input);
    Millionth(outcome.output, price.output);
    Millionth(estimate, price.input);
    Millionth(0, price.output);
    hide TokenCost;
  }

  lemma Millionth(tokens: nat, price: real)
    requires price > 0.0
    ensures 1000000.0 * TokenCost(tokens, price) == tokens as real * price
    ensures tokens > 0 ==> TokenCost(tokens, price) > 0.0
    ensures tokens == 0 ==> TokenCost(tokens, price) == 0.0
  {
    assert tokens > 0 ==> tokens as real * price > 0.0;
  }

  /** The prices per million tokens, in and out, of every known model on either side of 31 August 2026; any other model has
      the prices of the dearest. */
  lemma PriceTable(model: string, date: Date)
    ensures var price := PricePerMtok(model, date);
            var late := date.year > 2026 || (date.year == 2026 && (date.month > 8 || (date.month == 8 && date.day > 31)));
            var known := {"gemini-3.5-flash-lite", "gemini-3.1-flash-lite", "gemini-3-flash-preview", "gemini-3.5-flash",
                          "claude-haiku-4-5", "claude-sonnet-5", "claude-opus-5"};
            && (model in {"gemini-3.5-flash-lite", "gemini-3.1-flash-lite", "gemini-3-flash-preview"} ==>
                  price == Price(0.30, 2.50))
            && (model == "gemini-3.5-flash" ==> price == Price(0.60, 3.50))
            && (model == "claude-haiku-4-5" ==> price == Price(1.00, 5.00))
            && (model == "claude-sonnet-5" ==> price == if late then Price(3.00, 15.00) else Price(2.00, 10.00))
            && (model == "claude-opus-5" ==> price == Price(5.00, 25.00))
            && (model !in known ==> price == Price(5.00, 25.00))
  {
  }

  lemma CostMonotone(input: nat, output: nat, input': nat, output': nat, model: string, date: Date)
    requires input <= input' && output <= output'
    ensures 0.0 <= CostOf(input, output, model, date) <= CostOf(input', output', model, date)
  {
    var price := PricePerMtok(model, date);
    assert price.input >= 0.0 && price.output >= 0.0;
    hide PricePerMtok, TokenCost;
    Scaled(input, input', price.input);
    Scaled(output, output', price.output);
  }

  lemma Scaled(n: nat, m: nat, price: real)
    requires n <= m && price >= 0.0
    ensures 0.0 <= TokenCost(n, price) <= TokenCost(m, price)
  {
    assert 0.0 <= n as real * price <= m as real * price;
  }

  /** Within one month the price cannot change: the only change falls on the end of one. */
  lemma PeriodPrice(model: string, date: Date, date': Date)
    requires ValidDate(date) && ValidDate(date') && PeriodOf(date) == PeriodOf(date')
    ensures PricePerMtok(model, date) == PricePerMtok(model, date')
  {
    assert !IntroOver(date) <==> !IntroOver(date');
  }

  /** The premise of the ceiling: a call logged in the month of its reservation costs at most the reservation, counted,
      unbilled or of unknown cost, if the provider counts no more tokens than the estimate and the cap. */
  lemma CostWithinReservation(estimate: nat, cap: nat, outcome: Outcome, model: string, reserved: Date, logged: Date)
    requires ValidDate(reserved) && ValidDate(logged) && PeriodOf(reserved) == PeriodOf(logged)
    requires outcome.input <= estimate && outcome.output <= cap
    ensures 0.0 <= LoggedCost(estimate, outcome, model, logged) <= CostOf(estimate, cap, model, reserved)
  {
    PeriodPrice(model, reserved, logged);
    assert CostOf(estimate, cap, model, reserved) == CostOf(estimate, cap, model, logged);
    CostMonotone(outcome.input, outcome.output, estimate, cap, model, logged);
    CostMonotone(estimate, 0, estimate, cap, model, logged);
    hide CostOf;
  }

  /** So logging any such call is a priced step, whenever it is logged, of a reservation made on its estimate and cap. */
  lemma JudgeCallPriced(s: State, id: nat, estimate: nat, cap: nat, outcome: Outcome, model: string, reserved: Date, logged: Date)
    requires id < |s.reservations| && ValidDate(reserved) && ValidDate(logged)
    requires s.reservations[id].period == PeriodOf(reserved) && s.reservations[id].amount == CostOf(estimate, cap, model, reserved)
    requires outcome.input <= estimate && outcome.output <= cap
    ensures Priced(s, Log(id, PeriodOf(logged), LoggedCost(estimate, outcome, model, logged)))
  {
    CostWithinReservation(estimate, cap, outcome, model, logged, logged);
    if PeriodOf(reserved) == PeriodOf(logged) {
      CostWithinReservation(estimate, cap, outcome, model, reserved, logged);
    }
    hide CostOf, LoggedCost;
  }

  /** The price rose between the reservation and the log in a component whose bound is positive. */
  predicate Dearer(estimate: nat, cap: nat, model: string, reserved: Date, logged: Date) {
    || (estimate > 0 && PricePerMtok(model, reserved).input < PricePerMtok(model, logged).input)
    || (cap > 0 && PricePerMtok(model, reserved).output < PricePerMtok(model, logged).output)
  }

  /** Every outcome within the estimate and the cap costs at most what was reserved for them. */
  ghost predicate AllWithin(estimate: nat, cap: nat, model: string, reserved: Date, logged: Date) {
    forall outcome: Outcome :: outcome.input <= estimate && outcome.output <= cap ==>
      LoggedCost(estimate, outcome, model, logged) <= CostOf(estimate, cap, model, reserved)
  }

  /** With these rates that is exactly a call on the one model with introductory rates, reserved under them and logged
      after them. */
  lemma DearerExactly(estimate: nat, cap: nat, model: string, reserved: Date, logged: Date)
    ensures Dearer(estimate, cap, model, reserved, logged)
            <==> (estimate > 0 || cap > 0) && model == "claude-sonnet-5" && !IntroOver(reserved) && IntroOver(logged)
  {
    PriceMoves(model, reserved, logged);
    hide PricePerMtok, IntroOver;
  }

  lemma PriceMoves(model: string, reserved: Date, logged: Date)
    ensures var p, q := PricePerMtok(model, reserved), PricePerMtok(model, logged);
            if model == "claude-sonnet-5" && IntroOver(reserved) != IntroOver(logged)
            then if IntroOver(logged) then p.input < q.input && p.output < q.output
                 else p.input > q.input && p.output > q.output
            else p == q
  {
    hide IntroOver;
  }

  /** A call never costs more than its reservation if and only if the price did not rise, between the day it was reserved
      and the day it is logged, in a component whose bound is positive. */
  lemma WithinReservationExactly(estimate: nat, cap: nat, model: string, reserved: Date, logged: Date)
    ensures AllWithin(estimate, cap, model, reserved, logged) <==> !Dearer(estimate, cap, model, reserved, logged)
  {
    var full := Outcome(estimate, cap, false, false);
    assert LoggedCost(estimate, full, model, logged) == CostOf(estimate, cap, model, logged);
    hide *;
    DearerCost(estimate, cap, model, reserved, logged);
    if Dearer(estimate, cap, model, reserved, logged) {
      Overcharged(estimate, cap, full, model, reserved, logged);
    } else {
      Covered(estimate, cap, model, reserved, logged);
    }
  }

  lemma Overcharged(estimate: nat, cap: nat, full: Outcome, model: string, reserved: Date, logged: Date)
    requires full.input <= estimate && full.output <= cap
    requires LoggedCost(estimate, full, model, logged) > CostOf(estimate, cap, model, reserved)
    ensures !AllWithin(estimate, cap, model, reserved, logged)
  {
    hide LoggedCost, CostOf;
  }

  lemma Covered(estimate: nat, cap: nat, model: string, reserved: Date, logged: Date)
    requires CostOf(estimate, cap, model, logged) <= CostOf(estimate, cap, model, reserved)
    ensures AllWithin(estimate, cap, model, reserved, logged)
  {
    hide CostOf;
    forall outcome: Outcome | outcome.input <= estimate && outcome.output <= cap
      ensures LoggedCost(estimate, outcome, model, logged) <= CostOf(estimate, cap, model, reserved)
    {
      CostMonotone(outcome.input, outcome.output, estimate, cap, model, logged);
      CostMonotone(estimate, 0, estimate, cap, model, logged);
    }
  }

  lemma DearerCost(estimate: nat, cap: nat, model: string, reserved: Date, logged: Date)
    ensures Dearer(estimate, cap, model, reserved, logged)
            <==> CostOf(estimate, cap, model, logged) > CostOf(estimate, cap, model, reserved)
  {
    var p, q := PricePerMtok(model, reserved), PricePerMtok(model, logged);
    PriceMoves(model, reserved, logged);
    hide PricePerMtok, IntroOver, TokenCost;
    PriceCost(estimate, cap, p, q);
  }

  lemma PriceCost(estimate: nat, cap: nat, p: Price, q: Price)
    requires p == q || (p.input < q.input && p.output < q.output) || (p.input > q.input && p.output > q.output)
    ensures (estimate > 0 && p.input < q.input) || (cap > 0 && p.output < q.output)
            <==> TokenCost(estimate, q.input) + TokenCost(cap, q.output) > TokenCost(estimate, p.input) + TokenCost(cap, p.output)
  {
    Compared(estimate, p.input, q.input);
    Compared(cap, p.output, q.output);
    hide TokenCost;
  }

  lemma Compared(n: nat, p: real, q: real)
    ensures p <= q ==> TokenCost(n, p) <= TokenCost(n, q)
    ensures p >= q ==> TokenCost(n, p) >= TokenCost(n, q)
    ensures n > 0 && p < q ==> TokenCost(n, p) < TokenCost(n, q)
    ensures n == 0 ==> TokenCost(n, p) == TokenCost(n, q)
  {
    Products(n as real, p, q);
  }

  lemma Products(x: real, p: real, q: real)
    requires x >= 0.0
    ensures p <= q ==> x * p <= x * q
    ensures p >= q ==> x * p >= x * q
    ensures x > 0.0 && p < q ==> x * p < x * q
  {
    assert x * q - x * p == x * (q - p);
  }

  lemma LoggedNonnegative(estimate: nat, outcome: Outcome, model: string, logged: Date)
    ensures LoggedCost(estimate, outcome, model, logged) >= 0.0
  {
    CostMonotone(outcome.input, outcome.output, outcome.input, outcome.output, model, logged);
    CostMonotone(estimate, 0, estimate, 0, model, logged);
    hide CostOf;
  }

  /** Whatever comes back within the estimate and the cap, logging it in this month at the prices of this day is a priced
      step. */
  ghost predicate AlwaysPriced(s: State, id: nat, estimate: nat, cap: nat, model: string, costed: Date, period: Period) {
    forall outcome: Outcome :: outcome.input <= estimate && outcome.output <= cap ==>
      Priced(s, Log(id, period, LoggedCost(estimate, outcome, model, costed)))
  }

  /** A reservation is priced before its month is read, and a call is costed before its row is dated. So logging a call
      meets the premise of the ceiling law whatever comes back if and only if it is logged in another month than it was
      reserved in, or the price did not rise between the two pricings in a component whose bound is positive. */
  lemma JudgeCallPricedExactly(s: State, id: nat, estimate: nat, cap: nat, model: string, priced: Date, costed: Date,
                               period: Period)
    requires id < |s.reservations| && s.reservations[id].amount == CostOf(estimate, cap, model, priced)
    ensures AlwaysPriced(s, id, estimate, cap, model, costed, period)
            <==> (s.reservations[id].period == period ==> !Dearer(estimate, cap, model, priced, costed))
  {
    WithinReservationExactly(estimate, cap, model, priced, costed);
    hide CostOf, LoggedCost, Dearer;
    forall outcome: Outcome { LoggedNonnegative(estimate, outcome, model, costed); }
    if s.reservations[id].period == period && !AllWithin(estimate, cap, model, priced, costed) {
      var outcome: Outcome :| outcome.input <= estimate && outcome.output <= cap
                              && LoggedCost(estimate, outcome, model, costed) > CostOf(estimate, cap, model, priced);
      assert !Priced(s, Log(id, period, LoggedCost(estimate, outcome, model, costed)));
    }
  }

  /** Across the end of August 2026 a fully used reservation costs half as much again as was reserved. */
  lemma PriceChangeOvershoots()
    ensures var reserved, logged := Date(2026, 8, 31), Date(2026, 9, 1);
            && !AllWithin(1000000, 0, "claude-sonnet-5", reserved, logged)
            && LoggedCost(1000000, Outcome(1000000, 0, false, false), "claude-sonnet-5", logged) == 3.00
            && CostOf(1000000, 0, "claude-sonnet-5", reserved) == 2.00
  {
    assert PricePerMtok("claude-sonnet-5", Date(2026, 8, 31)) == Price(2.00, 10.00);
    assert PricePerMtok("claude-sonnet-5", Date(2026, 9, 1)) == Price(3.00, 15.00);
    DearerExactly(1000000, 0, "claude-sonnet-5", Date(2026, 8, 31), Date(2026, 9, 1));
    WithinReservationExactly(1000000, 0, "claude-sonnet-5", Date(2026, 8, 31), Date(2026, 9, 1));
  }

  // ---- the rows as they are updated ----

  datatype Reply = Granted(id: nat) | Done | NegativeAmount | BudgetExceeded | Inactive

  class Ledger {
    var reservations: seq<Reservation>
    var charges: seq<Charge>
    ghost var losses: seq<Charge>

    ghost function View(): State
      reads this
    {
      State(reservations, charges, losses)
    }

    /** reserve_budget, under the lock of its period. */
    method ReserveBudget(period: Period, amount: real, limit: real, hasJob: bool) returns (reply: Reply)
      modifies this`reservations
      ensures View() == Apply(old(View()), Reserve(period, amount, limit, hasJob))
      ensures reply == if amount < 0.0 then NegativeAmount
                       else if Committed(old(View()), period) + amount > limit then BudgetExceeded
                       else Granted(|old(reservations)|)
    {
      if amount < 0.0 {
        return NegativeAmount;
      }
      if Spent(charges, period) + Total(reservations, period, Reserved) + amount > limit {
        return BudgetExceeded;
      }
      reply := Granted(|reservations|);
      reservations := reservations + [Reservation(period, amount, hasJob, Active, true)];
    }

    /** release_budget, where no call was granted; it complains when recovery was there first. */
    method ReleaseBudget(id: nat) returns (reply: Reply)
      requires id < |reservations| && reservations[id].open
      modifies this`reservations
      ensures View() == Apply(old(View()), Refund(id))
      ensures reply == if old(reservations[id].status.Active?) then Done else Inactive
    {
      var active := reservations[id].status.Active?;
      reply := if active then Done else Inactive;
      reservations := reservations[id := reservations[id].(open := false,
        status := if active then Released else reservations[id].status)];
    }

    /** The closing transaction of a judge call: the run row, and the reservation whatever its status. */
    method LogCall(id: nat, period: Period, cost: real)
      requires id < |reservations| && reservations[id].open
      modifies this`reservations, this`charges
      ensures View() == Apply(old(View()), Log(id, period, cost))
    {
      charges := charges + [Charge(period, cost, reservations[id].period)];
      reservations := reservations[id := reservations[id].(status := Reconciled, open := false)];
    }

    /** The closing transaction of a merge call: reconcile_budget raises on an inactive reservation and takes the run
        row with it. */
    method LogMergeCall(id: nat, period: Period, cost: real) returns (reply: Reply)
      requires id < |reservations| && reservations[id].open
      modifies this`reservations, this`charges
      ensures View() == Apply(old(View()), LogMerge(id, period, cost))
      ensures reply == if old(reservations[id].status.Active?) then Done else Inactive
    {
      if reservations[id].status.Active? {
        LogCall(id, period, cost);
        reply := Done;
      } else {
        reservations := reservations[id := reservations[id].(open := false)];
        reply := Inactive;
      }
    }
  }
}
