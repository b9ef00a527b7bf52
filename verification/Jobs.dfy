/** Durable jobs and their leases (jobs.py): one labelled step is one statement or transaction of one caller. */
module Jobs {
  import opened Options

  datatype Status = Queued | Running | Complete | Failed | Cancelled

  datatype Job = Job(
    status: Status, holder: Option<nat>, lease: Option<int>, availableAt: int,
    callLimit: nat, calls: nat, cancelRequested: bool, attempts: nat)

  datatype Note = Created | Started | Deferred | Recovered | CancelAsked | Granted | Ended(status: Status)

  /** One row of the job history. */
  datatype Event = Event(job: nat, note: Note)

  datatype State = State(
    jobs: map<nat, Job>,
    events: seq<Event>,
    nextJob: nat,
    nextHolder: nat)      // holders are fresh: each claim is one execution

  datatype Step =
    | Create(callLimit: nat, now: int)
    | Claim(job: nat, leaseSeconds: nat, now: int)
    | Renew(job: nat, holder: nat, leaseSeconds: nat, now: int)
    | RequestCancel(job: nat, now: int)
    | Defer(job: nat, holder: nat, delaySeconds: nat, now: int)
    | Finish(job: nat, holder: nat, status: Status, now: int)
    | ConsumeCall(job: nat, now: int)
    | RecoverStale(now: int)

  const Initial := State(map[], [], 0, 0)

  predicate Terminal(status: Status) {
    status.Complete? || status.Failed? || status.Cancelled?
  }

  /** require_current: the row is running, held by this execution, and its lease is live. */
  predicate Current(s: State, job: nat, holder: nat, now: int) {
    && job in s.jobs && s.jobs[job].status.Running? && s.jobs[job].holder == Some(holder)
    && s.jobs[job].lease.Some? && s.jobs[job].lease.value > now
  }

  predicate Stale(job: Job, now: int) {
    job.status.Running? && (job.lease.None? || job.lease.value <= now)
  }

  function Requeued(job: Job): Job {
    job.(status := Queued, holder := None, lease := None)
  }

  predicate MayCall(job: Job) {
    job.status.Running? && (job.callLimit == 0 || job.calls < job.callLimit)
  }

  function Put(s: State, id: nat, job: Job, note: Note): State {
    s.(jobs := s.jobs[id := job], events := s.events + [Event(id, note)])
  }

  function Recoveries(jobs: map<nat, Job>, now: int, below: nat): seq<Event> {
    if below == 0 then []
    else Recoveries(jobs, now, below - 1)
         + if below - 1 in jobs && Stale(jobs[below - 1], now) then [Event(below - 1, Recovered)] else []
  }

  /** What recovery does to the rows: one that runs without a lease, or with one that ran out, is queued again and held by
      nobody; every other, such as one that is current for its holder, is as it was. */
  predicate RowsRecovered(before: map<nat, Job>, after: map<nat, Job>, now: int) {
    && after.Keys == before.Keys
    && forall id | id in before && id in after ::
         if before[id].status.Running? && !(before[id].lease.Some? && before[id].lease.value > now)
         then after[id] == before[id].(status := Queued, holder := None, lease := None)
         else after[id] == before[id]
  }

  /** A step whose guard fails raises, and leaves the state as it is. */
  function Apply(s: State, step: Step): State {
    match step
    case Create(limit, now) =>
      Put(s, s.nextJob, Job(Queued, None, None, now, limit, 0, false, 0), Created).(nextJob := s.nextJob + 1)
    case Claim(id, leaseSeconds, now) =>
      if id !in s.jobs || !s.jobs[id].status.Queued? || s.jobs[id].availableAt > now then s
      else
        var job := s.jobs[id].(status := Running, holder := Some(s.nextHolder), lease := Some(now + leaseSeconds),
                               attempts := s.jobs[id].attempts + 1);
        Put(s, id, job, Started).(nextHolder := s.nextHolder + 1)
    case Renew(id, holder, leaseSeconds, now) =>
      if !Current(s, id, holder, now) then s
      else s.(jobs := s.jobs[id := s.jobs[id].(lease := Some(now + leaseSeconds))])
    case RequestCancel(id, now) =>
      if id !in s.jobs || Terminal(s.jobs[id].status) then s
      else Put(s, id, s.jobs[id].(cancelRequested := true), CancelAsked)
    case Defer(id, holder, delaySeconds, now) =>
      if !Current(s, id, holder, now) then s
      else Put(s, id, Requeued(s.jobs[id]).(availableAt := now + delaySeconds), Deferred)
    case Finish(id, holder, status, now) =>
      if !Terminal(status) || !Current(s, id, holder, now) then s
      else Put(s, id, s.jobs[id].(status := status, holder := None, lease := None), Ended(status))
    case ConsumeCall(id, now) =>
      if id !in s.jobs || !MayCall(s.jobs[id]) then s
      else Put(s, id, s.jobs[id].(calls := s.jobs[id].calls + 1), Granted)
    case RecoverStale(now) =>
      s.(jobs := map id | id in s.jobs :: if Stale(s.jobs[id], now) then Requeued(s.jobs[id]) else s.jobs[id],
         events := s.events + Recoveries(s.jobs, now, s.nextJob))
  }

  function Run(s: State, steps: seq<Step>): State
    decreases |steps|
  {
    if steps == [] then s else Run(Apply(s, steps[0]), steps[1..])
  }

  // ---- the history, counted ----

  function Grants(events: seq<Event>, job: nat): nat {
    if events == [] then 0
    else Grants(events[..|events| - 1], job) + if events[|events| - 1] == Event(job, Granted) then 1 else 0
  }

  function Endings(events: seq<Event>, job: nat): nat {
    if events == [] then 0
    else Endings(events[..|events| - 1], job)
         + if events[|events| - 1].job == job && events[|events| - 1].note.Ended? then 1 else 0
  }

  lemma CountsOne(events: seq<Event>, e: Event, job: nat)
    ensures Grants(events + [e], job) == Grants(events, job) + if e == Event(job, Granted) then 1 else 0
    ensures Endings(events + [e], job) == Endings(events, job) + if e.job == job && e.note.Ended? then 1 else 0
  {
    assert (events + [e])[..|events|] == events;
  }

  lemma {:induction false} CountsQuiet(events: seq<Event>, more: seq<Event>, job: nat)
    requires forall e :: e in more ==> e.note.Recovered?
    ensures Grants(events + more, job) == Grants(events, job) && Endings(events + more, job) == Endings(events, job)
  {
    if more == [] {
      assert events + more == events;
    } else {
      var front, last := more[..|more| - 1], more[|more| - 1];
      assert events + more == (events + front) + [last];
      CountsOne(events + front, last, job);
      CountsQuiet(events, front, job);
    }
  }

  lemma {:induction false} RecoveriesQuiet(jobs: map<nat, Job>, now: int, below: nat)
    ensures forall e :: e in Recoveries(jobs, now, below) ==> e.note.Recovered?
  {
    if below != 0 {
      RecoveriesQuiet(jobs, now, below - 1);
    }
  }

  // ---- what every reachable state satisfies ----

  predicate JobOk(s: State, id: nat)
    requires id in s.jobs
  {
    var job := s.jobs[id];
    && id < s.nextJob
    && (job.status.Running? <==> job.holder.Some?) && (job.status.Running? <==> job.lease.Some?)
    && (job.holder.Some? ==> job.holder.value < s.nextHolder)
    && (job.callLimit > 0 ==> job.calls <= job.callLimit)
    && Grants(s.events, id) == job.calls
    && Endings(s.events, id) == if Terminal(job.status) then 1 else 0
  }

  ghost predicate Inv(s: State) {
    && (forall id :: id in s.jobs ==> JobOk(s, id))
    && (forall id: nat :: id !in s.jobs ==> Grants(s.events, id) == 0 && Endings(s.events, id) == 0)
    && (forall id: nat :: id in s.jobs <==> id < s.nextJob)
  }

  lemma PutKeeps(s: State, s': State, id: nat, job: Job, note: Note)
    requires Inv(s) && id <= s.nextJob && s' == Put(s, id, job, note).(nextJob := s'.nextJob, nextHolder := s'.nextHolder)
    requires s'.nextHolder >= s.nextHolder && s'.nextJob == if id == s.nextJob then s.nextJob + 1 else s.nextJob
    requires JobOk(s', id)
    ensures Inv(s')
  {
    forall j
      ensures j in s'.jobs ==> JobOk(s', j)
      ensures j !in s'.jobs ==> Grants(s'.events, j) == 0 && Endings(s'.events, j) == 0
    {
      CountsOne(s.events, Event(id, note), j);
      if j != id && j in s.jobs { assert JobOk(s, j); }
    }
  }

  lemma StepKeeps(s: State, step: Step)
    requires Inv(s)
    ensures Inv(Apply(s, step))
  {
    var s' := Apply(s, step);
    if step.RecoverStale? {
      RecoverKeeps(s, step.now);
    } else if step.Renew? {
      forall j | j in s'.jobs ensures JobOk(s', j) { assert JobOk(s, j); }
    } else if s' != s {
      var id := if step.Create? then s.nextJob else step.job;
      var e := s'.events[|s.events|];
      CountsOne(s.events, e, id);
      if id in s.jobs { assert JobOk(s, id); }
      PutKeeps(s, s', id, s'.jobs[id], e.note);
    }
  }

  lemma RecoverKeeps(s: State, now: int)
    requires Inv(s)
    ensures Inv(Apply(s, RecoverStale(now)))
  {
    var s' := Apply(s, RecoverStale(now));
    RecoveriesQuiet(s.jobs, now, s.nextJob);
    forall j
      ensures j in s'.jobs ==> JobOk(s', j)
      ensures j !in s'.jobs ==> Grants(s'.events, j) == 0 && Endings(s'.events, j) == 0
    {
      CountsQuiet(s.events, Recoveries(s.jobs, now, s.nextJob), j);
      if j in s.jobs { assert JobOk(s, j); }
    }
  }

  lemma {:induction false} RunKeeps(s: State, steps: seq<Step>)
    requires Inv(s)
    ensures Inv(Run(s, steps))
    decreases |steps|
  {
    if steps != [] {
      StepKeeps(s, steps[0]);
      RunKeeps(Apply(s, steps[0]), steps[1..]);
    }
  }

  // ---- main results ----

  /** Over all executions and recoveries of a job: it ends at most once, exactly when its status is terminal, and
      with a positive limit no more provider calls are ever granted to it than the limit. */
  lemma EndsOnceWithinItsCalls(steps: seq<Step>, id: nat)
    ensures var s := Run(Initial, steps);
            && Endings(s.events, id) == (if id in s.jobs && Terminal(s.jobs[id].status) then 1 else 0)
            && (id in s.jobs && s.jobs[id].callLimit > 0 ==> Grants(s.events, id) <= s.jobs[id].callLimit)
  {
    RunKeeps(Initial, steps);
    var s := Run(Initial, steps);
    assert id in s.jobs ==> JobOk(s, id);
  }

  /** Recovery changes no row that is current for some holder, and afterwards every running row is. */
  lemma RecoverySparesCurrent(s: State, now: int, id: nat)
    requires Inv(s) && id in s.jobs
    ensures var s' := Apply(s, RecoverStale(now));
            && id in s'.jobs
            && (if exists holder :: Current(s, id, holder, now) then s'.jobs[id] == s.jobs[id]
                else if s.jobs[id].status.Running? then s'.jobs[id].status.Queued? && s'.jobs[id].holder.None?
                else s'.jobs[id] == s.jobs[id])
            && (s'.jobs[id].status.Running? ==> s'.jobs[id].holder.Some? && Current(s', id, s'.jobs[id].holder.value, now))
  {
    assert JobOk(s, id);
    if s.jobs[id].status.Running? && s.jobs[id].lease.value > now {
      assert Current(s, id, s.jobs[id].holder.value, now);
    }
  }

  /** A finished row never changes again. */
  lemma {:induction false} TerminalAbsorbs(s: State, steps: seq<Step>, id: nat)
    requires Inv(s) && id in s.jobs && Terminal(s.jobs[id].status)
    ensures id in Run(s, steps).jobs && Run(s, steps).jobs[id] == s.jobs[id]
    decreases |steps|
  {
    if steps != [] {
      assert JobOk(s, id);
      StepKeeps(s, steps[0]);
      TerminalAbsorbs(Apply(s, steps[0]), steps[1..], id);
    }
  }

  /** This execution was superseded: it was issued and no longer holds the row. */
  predicate Superseded(s: State, id: nat, holder: nat) {
    holder < s.nextHolder && (id in s.jobs ==> s.jobs[id].holder != Some(holder))
  }

  lemma SupersededStep(s: State, step: Step, id: nat, holder: nat)
    requires Inv(s) && Superseded(s, id, holder)
    ensures Superseded(Apply(s, step), id, holder)
  {
    if id in s.jobs { assert JobOk(s, id); }
  }

  predicate ActsAs(step: Step, id: nat, holder: nat) {
    (step.Renew? || step.Defer? || step.Finish?) && step.job == id && step.holder == holder
  }

  /** An execution that lost its row, to recovery, deferral or its own end, never again renews, passes the fence,
      defers or finishes, whatever anyone does. */
  lemma {:induction false} SupersededForever(s: State, steps: seq<Step>, id: nat, holder: nat)
    requires Inv(s) && Superseded(s, id, holder)
    ensures forall now :: !Current(Run(s, steps), id, holder, now)
    ensures forall step :: ActsAs(step, id, holder) ==> Apply(Run(s, steps), step) == Run(s, steps)
    decreases |steps|
  {
    if steps != [] {
      SupersededStep(s, steps[0], id, holder);
      StepKeeps(s, steps[0]);
      SupersededForever(Apply(s, steps[0]), steps[1..], id, holder);
    }
  }

  lemma ExpiredStep(s: State, step: Step, id: nat, holder: nat, since: int)
    requires Inv(s) && holder < s.nextHolder && !Current(s, id, holder, since) && step.now >= since
    ensures holder < Apply(s, step).nextHolder && !Current(Apply(s, step), id, holder, since)
  {
    if id in s.jobs { assert JobOk(s, id); }
  }

  predicate NotBefore(steps: seq<Step>, since: int) {
    forall i :: 0 <= i < |steps| ==> steps[i].now >= since
  }

  /** So does one whose lease ran out, recovered or not, as long as no clock runs backwards. */
  lemma {:induction false} ExpiredForever(s: State, steps: seq<Step>, id: nat, holder: nat, since: int, now: int)
    requires Inv(s) && holder < s.nextHolder && !Current(s, id, holder, since)
    requires NotBefore(steps, since) && now >= since
    ensures !Current(Run(s, steps), id, holder, now)
    decreases |steps|
  {
    hide Inv, Apply;
    if steps != [] {
      StepKeeps(s, steps[0]);
      ExpiredStep(s, steps[0], id, holder, since);
      assert forall i :: 0 <= i < |steps[1..]| ==> steps[1..][i] == steps[i + 1];
      ExpiredForever(Apply(s, steps[0]), steps[1..], id, holder, since, now);
    }
  }

  // ---- the rows as they are updated ----

  datatype Refusal = NotQueued | LeaseLost | CannotCancel | NotTerminal | NotRunning | LimitReached

  datatype Reply<T> = Done(value: T) | Refused(refusal: Refusal)

  class JobStore {
    var jobs: map<nat, Job>
    var events: seq<Event>
    var nextJob: nat
    var nextHolder: nat

    ghost function View(): State
      reads this
    {
      State(jobs, events, nextJob, nextHolder)
    }

    method Record(job: nat, note: Note)
      modifies this`events
      ensures events == old(events) + [Event(job, note)]
    {
      events := events + [Event(job, note)];
    }

    method Create(callLimit: nat, now: int) returns (id: nat)
      modifies this`jobs, this`events, this`nextJob
      ensures View() == Apply(old(View()), Step.Create(callLimit, now)) && id == old(nextJob)
      ensures jobs == old(jobs)[id := Job(Queued, None, None, now, callLimit, 0, false, 0)] && nextJob == id + 1
    {
      id := nextJob;
      jobs := jobs[id := Job(Queued, None, None, now, callLimit, 0, false, 0)];
      nextJob := nextJob + 1;
      Record(id, Created);
    }

    /** Take a queued job under a holder of its own, or refuse. */
    method Claim(id: nat, leaseSeconds: nat, now: int) returns (reply: Reply<nat>)
      modifies this`jobs, this`events, this`nextHolder
      ensures View() == Apply(old(View()), Step.Claim(id, leaseSeconds, now))
      ensures reply.Done? <==> old(id in jobs && jobs[id].status.Queued? && jobs[id].availableAt <= now)
      ensures reply.Done? ==> id in jobs && jobs[id].status.Running? && jobs[id].holder == Some(reply.value)
                              && jobs[id].lease == Some(now + leaseSeconds) && jobs[id].attempts == old(jobs)[id].attempts + 1
      ensures reply.Refused? ==> reply.refusal == NotQueued && View() == old(View())
      ensures reply.Done? ==> reply.value == old(nextHolder) && (leaseSeconds > 0 ==> Current(View(), id, reply.value, now))
    {
      if id !in jobs || !jobs[id].status.Queued? || jobs[id].availableAt > now {
        return Refused(NotQueued);
      }
      reply := Done(nextHolder);
      jobs := jobs[id := jobs[id].(status := Running, holder := Some(nextHolder), lease := Some(now + leaseSeconds),
                                   attempts := jobs[id].attempts + 1)];
      nextHolder := nextHolder + 1;
      Record(id, Started);
    }

    method Renew(id: nat, holder: nat, leaseSeconds: nat, now: int) returns (renewed: bool)
      modifies this`jobs
      ensures View() == Apply(old(View()), Step.Renew(id, holder, leaseSeconds, now))
      ensures renewed <==> Current(old(View()), id, holder, now)
      ensures if renewed then jobs == old(jobs)[id := old(jobs)[id].(lease := Some(now + leaseSeconds))] else jobs == old(jobs)
    {
      renewed := IsCurrent(id, holder, now);
      if renewed {
        jobs := jobs[id := jobs[id].(lease := Some(now + leaseSeconds))];
      }
    }

    predicate IsCurrent(id: nat, holder: nat, now: int)
      reads this
      ensures IsCurrent(id, holder, now) <==> Current(View(), id, holder, now)
    {
      && id in jobs && jobs[id].status.Running? && jobs[id].holder == Some(holder)
      && jobs[id].lease.Some? && jobs[id].lease.value > now
    }

    method RequestCancel(id: nat, now: int) returns (reply: Reply<()>)
      modifies this`jobs, this`events
      ensures View() == Apply(old(View()), Step.RequestCancel(id, now))
      ensures reply == if old(id in jobs && (jobs[id].status.Queued? || jobs[id].status.Running?)) then Done(())
                       else Refused(CannotCancel)
      ensures if reply.Done? then jobs == old(jobs)[id := old(jobs)[id].(cancelRequested := true)] else jobs == old(jobs)
    {
      if id !in jobs || Terminal(jobs[id].status) {
        return Refused(CannotCancel);
      }
      jobs := jobs[id := jobs[id].(cancelRequested := true)];
      Record(id, CancelAsked);
      reply := Done(());
    }

    method Defer(id: nat, holder: nat, delaySeconds: nat, now: int) returns (reply: Reply<()>)
      modifies this`jobs, this`events
      ensures View() == Apply(old(View()), Step.Defer(id, holder, delaySeconds, now))
      ensures reply == if Current(old(View()), id, holder, now) then Done(()) else Refused(LeaseLost)
      ensures if reply.Done? then jobs == old(jobs)[id := old(jobs)[id].(status := Queued, holder := None, lease := None,
                                                                         availableAt := now + delaySeconds)]
              else jobs == old(jobs)
    {
      if !IsCurrent(id, holder, now) {
        return Refused(LeaseLost);
      }
      jobs := jobs[id := Requeued(jobs[id]).(availableAt := now + delaySeconds)];
      Record(id, Deferred);
      reply := Done(());
    }

    method Finish(id: nat, holder: nat, status: Status, now: int) returns (reply: Reply<()>)
      modifies this`jobs, this`events
      ensures View() == Apply(old(View()), Step.Finish(id, holder, status, now))
      ensures reply == if status.Queued? || status.Running? then Refused(NotTerminal)
                       else if Current(old(View()), id, holder, now) then Done(()) else Refused(LeaseLost)
      ensures if reply.Done? then jobs == old(jobs)[id := old(jobs)[id].(status := status, holder := None, lease := None)]
              else jobs == old(jobs)
    {
      if !Terminal(status) {
        return Refused(NotTerminal);
      }
      if !IsCurrent(id, holder, now) {
        return Refused(LeaseLost);
      }
      jobs := jobs[id := jobs[id].(status := status, holder := None, lease := None)];
      Record(id, Ended(status));
      reply := Done(());
    }

    /** Requeue abandoned jobs, picked and requeued in one statement. */
    method RecoverStale(now: int)
      modifies this`jobs, this`events
      ensures View() == Apply(old(View()), Step.RecoverStale(now))
      ensures forall id :: id in jobs ==> !Stale(jobs[id], now)
      ensures RowsRecovered(old(jobs), jobs, now)
    {
      var recovered := Recoveries(jobs, now, nextJob);
      jobs := map id | id in jobs :: if Stale(jobs[id], now) then Requeued(jobs[id]) else jobs[id];
      events := events + recovered;
    }

    /** One provider call from the job's allowance; a limit of zero is none. */
    method ConsumeCall(id: nat, now: int) returns (reply: Reply<nat>)
      modifies this`jobs, this`events
      ensures View() == Apply(old(View()), Step.ConsumeCall(id, now))
      ensures reply == if id !in old(jobs) || !old(jobs)[id].status.Running? then Refused(NotRunning)
                       else if 0 < old(jobs)[id].callLimit <= old(jobs)[id].calls then Refused(LimitReached)
                       else Done(old(jobs)[id].calls + 1)
      ensures if reply.Done? then jobs == old(jobs)[id := old(jobs)[id].(calls := reply.value)] else jobs == old(jobs)
    {
      if id in jobs && MayCall(jobs[id]) {
        jobs := jobs[id := jobs[id].(calls := jobs[id].calls + 1)];
        Record(id, Granted);
        reply := Done(jobs[id].calls);
      } else {
        reply := Refused(if id in jobs && jobs[id].status.Running? then LimitReached else NotRunning);
      }
    }
  }
}
