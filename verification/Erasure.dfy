/**
 Crash-safe erasure (privacy.py): an erase job accepts, writes a receipt outside the database, deletes, cleans up; backups
 may be restored at any time and receipts replayed over them before the service reopens.
 */
module Erasure {
  import opened Options

  type User = nat

  datatype Status = Queued | Running | Complete | Failed | Cancelled

  /** An erase job with its checkpoint. */
  datatype Job = Job(user: User, status: Status, holder: Option<nat>, cancelRequested: bool, accepted: bool, databaseErased: bool)

  /** What a dump holds: users, their private rows by owner, who has authored shared memories, the jobs. */
  datatype Database = Database(users: set<User>, rows: map<nat, User>, authors: set<User>, jobs: map<nat, Job>)

  datatype Phase = Started | Accepted | Receipted

  /** One execution of an erase job; whether the job had been accepted when it was claimed. */
  datatype Execution = Execution(job: nat, resumed: bool, phase: Phase)

  datatype State = State(
    db: Database,
    backups: seq<Database>,
    receipts: set<User>,            // files outside the database
    executions: map<nat, Execution>,
    nextExecution: nat,
    nextJob: nat,
    serving: bool,
    known: set<User>,               // every user id ever issued
    erased: set<User>)              // users whose database erasure ever committed

  datatype Step =
    | AddUser(user: User)
    | AddRow(row: nat, user: User)
    | Share(user: User)
    | Reassign(user: User)
    | Request(user: User)
    | Claim(job: nat)
    | RequestCancel(job: nat)
    | CancelRun(execution: nat)
    | Accept(execution: nat)
    | WriteReceipt(execution: nat)
    | EraseDatabase(execution: nat)
    | Finish(execution: nat, failed: bool)
    | Defer(execution: nat)
    | Recover(job: nat)
    | Crash(execution: nat)
    | DropJob(job: nat)               // its requester was erased
    | Backup
    | Restore(backup: nat)
    | Replay(user: User)
    | Reopen

  const Empty := Database({}, map[], {}, map[])
  const Initial := State(Empty, [], {}, map[], 0, 0, true, {}, {})

  /** The execution still holds its job. */
  predicate Current(s: State, e: nat) {
    && e in s.executions && s.executions[e].job in s.db.jobs
    && s.db.jobs[s.executions[e].job].status.Running? && s.db.jobs[s.executions[e].job].holder == Some(e)
  }

  function PutJob(s: State, id: nat, job: Job): State {
    s.(db := s.db.(jobs := s.db.jobs[id := job]))
  }

  function Advance(s: State, e: nat, phase: Phase): State
    requires e in s.executions
  {
    s.(executions := s.executions[e := s.executions[e].(phase := phase)])
  }

  function WithoutRows(rows: map<nat, User>, user: User): map<nat, User> {
    map r | r in rows && rows[r] != user :: rows[r]
  }

  /** _erase_database: the authoritative rows and the checkpoint go in one transaction. */
  function EraseRows(db: Database, user: User, id: nat, job: Job): Database {
    db.(users := db.users - {user}, rows := WithoutRows(db.rows, user),
        jobs := db.jobs[id := job.(accepted := true, databaseErased := true)])
  }

  function ReplayJob(user: User): Job {
    Job(user, Queued, None, false, true, true)
  }

  /** One receipt over an offline database: nothing to do, refused because of shared authorship, or reapplied. */
  function ReplayOne(db: Database, user: User, id: nat): Option<Database> {
    if user !in db.users then Some(db)
    else if user in db.authors then None
    else Some(EraseRows(db, user, id, ReplayJob(user)))
  }

  function Apply(s: State, step: Step): State {
    match step
    case AddUser(u) =>
      if !s.serving || u in s.known then s else s.(db := s.db.(users := s.db.users + {u}), known := s.known + {u})
    case AddRow(r, u) =>
      if !s.serving || u !in s.db.users || r in s.db.rows then s else s.(db := s.db.(rows := s.db.rows[r := u]))
    case Share(u) => if !s.serving || u !in s.db.users then s else s.(db := s.db.(authors := s.db.authors + {u}))
    case Reassign(u) => s.(db := s.db.(authors := s.db.authors - {u}))
    case Request(u) =>
      if !s.serving || u !in s.db.users then s
      else PutJob(s, s.nextJob, Job(u, Queued, None, false, false, false)).(nextJob := s.nextJob + 1)
    case Claim(j) =>
      if !s.serving || j !in s.db.jobs || !s.db.jobs[j].status.Queued? then s
      else
        PutJob(s, j, s.db.jobs[j].(status := Running, holder := Some(s.nextExecution))).(
          executions := s.executions[s.nextExecution := Execution(j, s.db.jobs[j].accepted, Started)],
          nextExecution := s.nextExecution + 1)
    case RequestCancel(j) =>
      if !s.serving || j !in s.db.jobs || s.db.jobs[j].accepted then s
      else if !s.db.jobs[j].status.Queued? && !s.db.jobs[j].status.Running? then s
      else PutJob(s, j, s.db.jobs[j].(cancelRequested := true))
    case CancelRun(e) =>
      // Looked at once, before the operation starts.
      if !Current(s, e) || !s.executions[e].phase.Started? || s.executions[e].resumed
         || !s.db.jobs[s.executions[e].job].cancelRequested then s
      else
        var j := s.executions[e].job;
        PutJob(s, j, s.db.jobs[j].(status := Cancelled, holder := None)).(executions := s.executions - {e})
    case Accept(e) =>
      if !Current(s, e) || !s.executions[e].phase.Started? then s
      else
        var j := s.executions[e].job;
        if s.db.jobs[j].databaseErased || s.db.jobs[j].user in s.db.authors then s
        else Advance(PutJob(s, j, s.db.jobs[j].(accepted := true)), e, Accepted)
    case WriteReceipt(e) =>
      // A file, not a transaction: no fence, and it survives whatever happens to the database.
      if e !in s.executions || !s.executions[e].phase.Accepted? || s.executions[e].job !in s.db.jobs then s
      else Advance(s, e, Receipted).(receipts := s.receipts + {s.db.jobs[s.executions[e].job].user})
    case EraseDatabase(e) =>
      if !Current(s, e) || !s.executions[e].phase.Receipted? then s
      else
        var j := s.executions[e].job;
        s.(db := EraseRows(s.db, s.db.jobs[j].user, j, s.db.jobs[j]), erased := s.erased + {s.db.jobs[j].user})
    case Finish(e, failed) =>
      if !Current(s, e) || (!failed && !s.db.jobs[s.executions[e].job].databaseErased) then s
      else
        var j := s.executions[e].job;
        PutJob(s, j, s.db.jobs[j].(status := if failed then Failed else Complete, holder := None)).(
          executions := s.executions - {e})
    case Defer(e) =>
      if !Current(s, e) then s
      else
        var j := s.executions[e].job;
        PutJob(s, j, s.db.jobs[j].(status := Queued, holder := None)).(executions := s.executions - {e})
    case Recover(j) =>
      if !s.serving || j !in s.db.jobs || !s.db.jobs[j].status.Running? then s
      else PutJob(s, j, s.db.jobs[j].(status := Queued, holder := None))
    case Crash(e) => s.(executions := s.executions - {e})
    case DropJob(j) => s.(db := s.db.(jobs := s.db.jobs - {j}))
    case Backup => if !s.serving then s else s.(backups := s.backups + [s.db])
    case Restore(b) =>
      // Every process is stopped before the database is replaced.
      if b >= |s.backups| then s else s.(db := s.backups[b], executions := map[], serving := false)
    case Replay(u) =>
      if s.serving || u !in s.receipts || ReplayOne(s.db, u, s.nextJob).None? then s
      else
        s.(db := ReplayOne(s.db, u, s.nextJob).value, nextJob := if u in s.db.users then s.nextJob + 1 else s.nextJob,
           erased := if u in s.db.users then s.erased + {u} else s.erased)
    case Reopen => if s.serving || !(s.receipts !! s.db.users) then s else s.(serving := true)
  }

  function Run(s: State, steps: seq<Step>): State
    decreases |steps|
  {
    if steps == [] then s else Run(Apply(s, steps[0]), steps[1..])
  }

  // ---- what every reachable state satisfies ----

  /** A database this installation could have had: rows belong to users, and no accepted job was cancelled. */
  ghost predicate DatabaseOk(db: Database, known: set<User>, nextExecution: nat, nextJob: nat) {
    && db.users <= known
    && (forall r :: r in db.rows ==> db.rows[r] in db.users)
    && (forall j :: j in db.jobs && db.jobs[j].accepted ==> !db.jobs[j].status.Cancelled?)
    && (forall j :: j in db.jobs ==> j < nextJob && db.jobs[j].user in known)
    && (forall j :: j in db.jobs && db.jobs[j].holder.Some? ==> db.jobs[j].holder.value < nextExecution)
  }

  /** An execution knows whether its job was accepted, and wrote its receipt before it may erase. */
  predicate ExecutionOk(s: State, e: nat)
    requires e in s.executions
  {
    var x := s.executions[e];
    && e < s.nextExecution && x.job < s.nextJob
    && (Current(s, e) && s.db.jobs[x.job].accepted ==> x.resumed || !x.phase.Started?)
    && (x.phase.Receipted? && x.job in s.db.jobs ==> s.db.jobs[x.job].user in s.receipts)
  }

  ghost predicate ExecutionsOk(s: State) {
    forall e {:trigger ExecutionOk(s, e)} :: e in s.executions ==> ExecutionOk(s, e)
  }

  ghost predicate Inv(s: State) {
    && DatabaseOk(s.db, s.known, s.nextExecution, s.nextJob)
    && (forall b :: 0 <= b < |s.backups| ==> DatabaseOk(s.backups[b], s.known, s.nextExecution, s.nextJob))
    && ExecutionsOk(s)
    && s.erased <= s.receipts && s.erased <= s.known
    && (s.serving ==> s.erased !! s.db.users)
  }

  lemma DatabaseStep(s: State, step: Step)
    requires Inv(s)
    ensures DatabaseOk(Apply(s, step).db, Apply(s, step).known, Apply(s, step).nextExecution, Apply(s, step).nextJob)
  {
    if (step.CancelRun? || step.EraseDatabase? || step.Accept?) && step.execution in s.executions {
      assert ExecutionOk(s, step.execution);
    }
  }

  lemma ExecutionsStep(s: State, step: Step, s': State)
    requires Inv(s) && s' == Apply(s, step)
    ensures ExecutionsOk(s')
  {
    forall e | e in s'.executions
      ensures ExecutionOk(s', e)
    {
      if e in s.executions { assert ExecutionOk(s, e); }
    }
  }

  lemma BackupsStep(s: State, step: Step)
    requires Inv(s)
    ensures forall b :: 0 <= b < |Apply(s, step).backups| ==>
              DatabaseOk(Apply(s, step).backups[b], Apply(s, step).known, Apply(s, step).nextExecution, Apply(s, step).nextJob)
  {
    var s' := Apply(s, step);
    forall b | 0 <= b < |s'.backups|
      ensures DatabaseOk(s'.backups[b], s'.known, s'.nextExecution, s'.nextJob)
    {
      if b < |s.backups| { assert DatabaseOk(s.backups[b], s.known, s.nextExecution, s.nextJob); }
    }
  }

  lemma ErasedStep(s: State, step: Step, s': State)
    requires Inv(s) && s' == Apply(s, step)
    ensures s'.erased <= s'.receipts && s'.erased <= s'.known && (s'.serving ==> s'.erased !! s'.db.users)
  {
    if step.EraseDatabase? && step.execution in s.executions {
      assert ExecutionOk(s, step.execution);
    }
  }

  lemma StepKeeps(s: State, step: Step)
    requires Inv(s)
    ensures Inv(Apply(s, step))
  {
    hide DatabaseOk, ExecutionsOk;
    DatabaseStep(s, step);
    BackupsStep(s, step);
    ExecutionsStep(s, step, Apply(s, step));
    ErasedStep(s, step, Apply(s, step));
    hide Apply;
  }

  lemma {:induction false} RunKeeps(s: State, steps: seq<Step>)
    requires Inv(s)
    ensures Inv(Run(s, steps))
    decreases |steps|
  {
    if steps != [] {
      StepKeeps(s, steps[0]);
      RunKeeps(Apply(s, steps[0]), steps[1..]);
    }
  }

  // ---- main results ----

  /** Over any run of erasures, crashes, backups, restores and replays: a user whose erasure ever committed has a receipt
      outside the database, and while the service is open neither the user nor any of their rows exists. */
  lemma ErasedUsersStayErased(steps: seq<Step>, user: User)
    requires user in Run(Initial, steps).erased
    ensures var s := Run(Initial, steps);
            && user in s.receipts
            && (s.serving ==> user !in s.db.users && forall r :: r in s.db.rows ==> s.db.rows[r] != user)
  {
    RunKeeps(Initial, steps);
  }

  /** An erasure that was accepted never ends cancelled, in the database or in any backup of it. */
  lemma AcceptedNeverCancelled(steps: seq<Step>, job: nat)
    ensures var s := Run(Initial, steps);
            && (job in s.db.jobs && s.db.jobs[job].accepted ==> !s.db.jobs[job].status.Cancelled?)
            && forall b :: 0 <= b < |s.backups| && job in s.backups[b].jobs && s.backups[b].jobs[job].accepted ==>
                 !s.backups[b].jobs[job].status.Cancelled?
  {
    RunKeeps(Initial, steps);
  }

  /** Deleting requires the receipt: no step erases a user whose receipt is not already durable. */
  lemma ReceiptBeforeDelete(steps: seq<Step>, step: Step, user: User)
    requires var s := Run(Initial, steps); user in s.db.users && user !in Apply(s, step).db.users && !step.Restore?
    ensures user in Run(Initial, steps).receipts
  {
    RunKeeps(Initial, steps);
    var s := Run(Initial, steps);
    if step.EraseDatabase? {
      assert ExecutionOk(s, step.execution);
    }
  }

  // ---- an erasure from its request to its end ----

  lemma RunOne(s: State, step: Step, rest: seq<Step>)
    ensures Run(s, [step] + rest) == Run(Apply(s, step), rest)
  {
    assert ([step] + rest)[1..] == rest;
  }

  lemma RunTwo(s: State, a: Step, b: Step)
    ensures Run(s, [a, b]) == Apply(Apply(s, a), b)
  {
    RunOne(s, a, [b]);
    RunOne(Apply(s, a), b, []);
    assert [a] + [b] == [a, b] && [b] + [] == [b];
  }

  lemma RunThree(s: State, a: Step, b: Step, c: Step)
    ensures Run(s, [a, b, c]) == Apply(Apply(Apply(s, a), b), c)
  {
    RunOne(s, a, [b, c]);
    RunTwo(Apply(s, a), b, c);
    assert [a] + [b, c] == [a, b, c];
  }

  /** A request is one more queued job, that nobody holds and that has accepted nothing. */
  lemma RequestedIsQueued(s: State, user: User)
    requires Inv(s) && s.serving && user in s.db.users
    ensures var r := Apply(s, Request(user));
            && s.nextJob !in s.db.jobs && r.nextJob > s.nextJob
            && r.db == s.db.(jobs := s.db.jobs[s.nextJob := Job(user, Queued, None, false, false, false)])
  {
  }

  /** An execution begins under a name of its own and knows whether it resumes an accepted erasure. */
  lemma ClaimBegins(s: State, j: nat)
    requires Inv(s) && s.serving && j in s.db.jobs && s.db.jobs[j].status.Queued?
    ensures var e := s.nextExecution;
            && e !in s.executions && Current(Apply(s, Claim(j)), e)
            && Apply(s, Claim(j)) == s.(db := s.db.(jobs := s.db.jobs[j := s.db.jobs[j].(status := Running, holder := Some(e))]),
                                        executions := s.executions[e := Execution(j, s.db.jobs[j].accepted, Started)],
                                        nextExecution := e + 1)
  {
    forall e | e in s.executions ensures e < s.nextExecution { assert ExecutionOk(s, e); }
  }

  /** Acceptance is checkpointed before the receipt is written, and deletes nothing. */
  lemma AcceptanceReceipted(s: State, e: nat)
    requires Current(s, e) && s.executions[e].phase.Started?
    requires var job := s.db.jobs[s.executions[e].job]; !job.databaseErased && job.user !in s.db.authors
    ensures var x := s.executions[e];
            var job := s.db.jobs[x.job];
            var a := Apply(s, Accept(e));
            && Current(a, e) && a.db == s.db.(jobs := s.db.jobs[x.job := job.(accepted := true)])
            && Apply(a, WriteReceipt(e)) == s.(db := a.db, receipts := s.receipts + {job.user},
                                               executions := s.executions[e := x.(phase := Receipted)])
  {
  }

  /** Exactly the user and their rows go, with the checkpoint. */
  lemma RowsErased(s: State, e: nat)
    requires Current(s, e) && s.executions[e].phase.Receipted?
    ensures var j := s.executions[e].job;
            var user := s.db.jobs[j].user;
            var r := Apply(s, EraseDatabase(e));
            && Current(r, e) && r == s.(db := r.db, erased := s.erased + {user}) && r.db.authors == s.db.authors
            && r.db.users == s.db.users - {user}
            && r.db.rows == (map row | row in s.db.rows && s.db.rows[row] != user :: s.db.rows[row])
            && r.db.jobs == s.db.jobs[j := s.db.jobs[j].(accepted := true, databaseErased := true)]
  {
  }

  /** A queued erasure, new or resumed after any interruption, runs to its end unless the user has authored shared memories:
      the receipt is written before anything is deleted, exactly the user and their rows go, and the job is complete. */
  lemma ErasureFinishes(s: State, j: nat)
    requires Inv(s) && s.serving && j in s.db.jobs && s.db.jobs[j].status.Queued? && !s.db.jobs[j].databaseErased
    requires s.db.jobs[j].user !in s.db.authors
    ensures var e, user := s.nextExecution, s.db.jobs[j].user;
            var a := Run(s, [Claim(j), Accept(e), WriteReceipt(e)]);
            var r := Run(a, [EraseDatabase(e), Finish(e, false)]);
            && a.db.users == s.db.users && a.db.rows == s.db.rows && a.receipts == s.receipts + {user}
            && r.db.users == s.db.users - {user} && r.db.authors == s.db.authors && r.receipts == a.receipts
            && r.db.rows == (map row | row in s.db.rows && s.db.rows[row] != user :: s.db.rows[row])
            && r.db.jobs == s.db.jobs[j := Job(user, Complete, None, s.db.jobs[j].cancelRequested, true, true)]
            && r.executions == s.executions && r.erased == s.erased + {user}
  {
    var e := s.nextExecution;
    RunThree(s, Claim(j), Accept(e), WriteReceipt(e));
    ClaimBegins(s, j);
    AcceptanceReceipted(Apply(s, Claim(j)), e);
    var a := Run(s, [Claim(j), Accept(e), WriteReceipt(e)]);
    RunTwo(a, EraseDatabase(e), Finish(e, false));
    hide Apply, Run, Inv;
    RowsErased(a, e);
    LeavesExactly(Apply(a, EraseDatabase(e)), e);
    assert s.executions[e := Execution(j, s.db.jobs[j].accepted, Receipted)] - {e} == s.executions;
  }

  /** A job whose rows are already gone, such as one saved by a replay, has only its cleanup left. */
  lemma CleanupFinishes(s: State, j: nat)
    requires Inv(s) && s.serving && j in s.db.jobs && s.db.jobs[j].status.Queued? && s.db.jobs[j].databaseErased
    ensures var r := Run(s, [Claim(j), Finish(s.nextExecution, false)]);
            r.db == s.db.(jobs := s.db.jobs[j := s.db.jobs[j].(status := Complete, holder := None)])
  {
    RunTwo(s, Claim(j), Finish(s.nextExecution, false));
    ClaimBegins(s, j);
    LeavesExactly(Apply(s, Claim(j)), s.nextExecution);
    hide Apply, Run, Inv;
  }

  /** Asking to cancel ends a queued erasure cancelled, with nothing deleted, exactly if it has not been accepted; otherwise
      the erasure goes on. */
  lemma CancelledExactly(s: State, j: nat)
    requires Inv(s) && s.serving && j in s.db.jobs && s.db.jobs[j].status.Queued?
    ensures var r := Run(s, [RequestCancel(j), Claim(j), CancelRun(s.nextExecution)]);
            && r.db.users == s.db.users && r.db.rows == s.db.rows && r.db.jobs.Keys == s.db.jobs.Keys
            && r.db.jobs[j] == (if s.db.jobs[j].accepted
                                then s.db.jobs[j].(status := Running, holder := Some(s.nextExecution))
                                else s.db.jobs[j].(status := Cancelled, holder := None, cancelRequested := true))
            && (s.nextExecution in r.executions <==> s.db.jobs[j].accepted)
  {
    RunThree(s, RequestCancel(j), Claim(j), CancelRun(s.nextExecution));
    CancelAsksExactly(s, j);
    StepKeeps(s, RequestCancel(j));
    var q := Apply(s, RequestCancel(j));
    assert q == s.(db := q.db);
    ClaimBegins(q, j);
    LeavesExactly(Apply(q, Claim(j)), s.nextExecution);
    hide Apply, Run, Inv;
  }

  /** Asking to cancel marks only a job that waits or runs and has not been accepted. */
  lemma CancelAsksExactly(s: State, j: nat)
    requires s.serving
    ensures var open := j in s.db.jobs && (s.db.jobs[j].status.Queued? || s.db.jobs[j].status.Running?) && !s.db.jobs[j].accepted;
            Apply(s, RequestCancel(j)).db
            == if open then s.db.(jobs := s.db.jobs[j := s.db.jobs[j].(cancelRequested := true)]) else s.db
  {
  }

  /** An execution whose process died is forgotten, and recovery queues its job again as it stood, so that it can be
      resumed. */
  lemma CrashedIsResumed(s: State, e: nat)
    requires s.serving && Current(s, e)
    ensures var j := s.executions[e].job;
            var r := Run(s, [Crash(e), Recover(j)]);
            && r.db == s.db.(jobs := s.db.jobs[j := s.db.jobs[j].(status := Queued, holder := None)])
            && r.executions == s.executions - {e} && r.receipts == s.receipts && r.serving
  {
    RunTwo(s, Crash(e), Recover(s.executions[e].job));
  }

  /** The execution gave up its job with this status. */
  predicate Left(s: State, r: State, e: nat, status: Status)
    requires Current(s, e)
  {
    var j := s.executions[e].job;
    && r.db == s.db.(jobs := s.db.jobs[j := s.db.jobs[j].(status := status, holder := None)])
    && r.executions == s.executions - {e} && r.receipts == s.receipts && r.erased == s.erased
  }

  /** How an execution may leave its job: failed at any time, complete only once the rows are gone, back in the queue at any
      time, and cancelled only when that was asked for, before it did anything and unless it resumed an accepted erasure. */
  lemma LeavesExactly(s: State, e: nat)
    requires Current(s, e)
    ensures Left(s, Apply(s, Finish(e, true)), e, Failed) && Left(s, Apply(s, Defer(e)), e, Queued)
    ensures var r := Apply(s, Finish(e, false));
            if s.db.jobs[s.executions[e].job].databaseErased then Left(s, r, e, Complete) else r == s
    ensures var x, r := s.executions[e], Apply(s, CancelRun(e));
            if s.db.jobs[x.job].cancelRequested && x.phase.Started? && !x.resumed then Left(s, r, e, Cancelled) else r == s
  {
  }

  /** An execution that lost its job changes nothing in the database, and neither does acceptance when the erasure is
      under way, done or blocked by shared authorship. */
  lemma LostOrBlocked(s: State, e: nat)
    ensures !Current(s, e) ==> forall step | step in {Accept(e), EraseDatabase(e), Finish(e, true), Finish(e, false), Defer(e),
                                                     CancelRun(e)} :: Apply(s, step) == s
    ensures !Current(s, e) ==> Apply(s, WriteReceipt(e)).db == s.db
    ensures Current(s, e) && (var job := s.db.jobs[s.executions[e].job];
                              job.databaseErased || job.user in s.db.authors || !s.executions[e].phase.Started?) ==>
              Apply(s, Accept(e)) == s
  {
  }

  // ---- while the service is stopped ----

  lemma {:induction false} StoppedIsIdle(s: State, steps: seq<Step>)
    requires !s.serving ==> s.executions == map[]
    ensures !Run(s, steps).serving ==> Run(s, steps).executions == map[]
    decreases |steps|
  {
    if steps != [] {
      StoppedIsIdle(Apply(s, steps[0]), steps[1..]);
    }
  }

  /** What an operator may do to a restored database before the service is opened again. */
  predicate Offline(step: Step) {
    step.Reassign? || step.DropJob? || step.Restore? || step.Replay? || step.Reopen?
  }

  /** Between a restore and the reopening no request is served, no job runs and no backup is made. */
  lemma StoppedChangesNothing(steps: seq<Step>, step: Step)
    requires !Run(Initial, steps).serving && !Offline(step)
    ensures Apply(Run(Initial, steps), step) == Run(Initial, steps)
  {
    StoppedIsIdle(Initial, steps);
  }

  lemma {:induction false} BackupsStay(s: State, steps: seq<Step>, b: nat)
    requires b < |s.backups|
    ensures b < |Run(s, steps).backups| && Run(s, steps).backups[b] == s.backups[b]
    decreases |steps|
  {
    if steps != [] {
      BackupsStay(Apply(s, steps[0]), steps[1..], b);
    }
  }

  /** Restoring a backup at any later time brings back the database it was made of, with no execution and the service
      stopped; the receipts are not touched. */
  lemma BackupRestores(s: State, steps: seq<Step>)
    requires s.serving
    ensures var t := Run(Apply(s, Backup), steps);
            Apply(t, Restore(|s.backups|)) == t.(db := s.db, executions := map[], serving := false)
  {
    BackupsStay(Apply(s, Backup), steps, |s.backups|);
  }

  /** What the open service records of its users. */
  lemma ServiceRecords(s: State, user: User, row: nat)
    requires s.serving
    ensures user !in s.known ==>
              Apply(s, AddUser(user)) == s.(db := s.db.(users := s.db.users + {user}), known := s.known + {user})
    ensures user in s.db.users && row !in s.db.rows ==>
              Apply(s, AddRow(row, user)) == s.(db := s.db.(rows := s.db.rows[row := user]))
    ensures user in s.db.users ==> Apply(s, Share(user)) == s.(db := s.db.(authors := s.db.authors + {user}))
    ensures user !in s.db.users ==> Apply(s, AddRow(row, user)) == s && Apply(s, Share(user)) == s && Apply(s, Request(user)) == s
    ensures Apply(s, Reassign(user)) == s.(db := s.db.(authors := s.db.authors - {user}))
    ensures Apply(s, DropJob(row)) == s.(db := s.db.(jobs := s.db.jobs - {row}))
  {
  }

  // ---- replay ----

  datatype Replayed = Replayed(db: Database, complete: bool, nextJob: nat, reapplied: nat)

  /** Receipt by receipt, each in its own transaction, up to the first that shared authorship blocks. */
  function ReplayAll(db: Database, receipts: seq<User>, nextJob: nat): Replayed
    decreases |receipts|
  {
    if receipts == [] then Replayed(db, true, nextJob, 0)
    else
      var one := ReplayOne(db, receipts[0], nextJob);
      if one.None? then Replayed(db, false, nextJob, 0)
      else
        var present := receipts[0] in db.users;
        var rest := ReplayAll(one.value, receipts[1..], if present then nextJob + 1 else nextJob);
        rest.(reapplied := rest.reapplied + if present then 1 else 0)
  }

  ghost predicate Sound(db: Database) {
    forall r :: r in db.rows ==> db.rows[r] in db.users
  }

  ghost function Others(rows: map<nat, User>, receipts: seq<User>): map<nat, User> {
    map r | r in rows && rows[r] !in receipts :: rows[r]
  }

  /** A replay completes exactly when no receipt's user, still present, has authored shared memories; then exactly the
      receipts' users and their rows are gone. */
  lemma {:induction false} ReplaySanitizes(db: Database, receipts: seq<User>, nextJob: nat)
    requires Sound(db)
    ensures var r := ReplayAll(db, receipts, nextJob);
            && (r.complete <==> forall u :: u in receipts && u in db.users ==> u !in db.authors)
            && (r.complete ==> r.db.users == db.users - (set u | u in receipts) && r.db.rows == Others(db.rows, receipts))
            && r.db.authors == db.authors
    decreases |receipts|
  {
    if receipts == [] {
      assert Others(db.rows, receipts) == db.rows;
    } else {
      var u, rest := receipts[0], receipts[1..];
      assert receipts == [u] + rest;
      var one := ReplayOne(db, u, nextJob);
      if one.Some? {
        var next := if u in db.users then nextJob + 1 else nextJob;
        ReplaySanitizes(one.value, rest, next);
        assert Others(one.value.rows, rest) == Others(db.rows, receipts);
        assert one.value.users - (set v | v in rest) == db.users - (set v | v in receipts);
      } else {
        assert u in receipts && u in db.users && u in db.authors;
      }
    }
  }

  /** The job a reapplied receipt saves: queued for any worker, accepted, with only the cleanup left to do. */
  predicate CleanupQueued(job: Job, user: User) {
    job.user == user && job.status.Queued? && job.holder.None? && !job.cancelRequested && job.accepted && job.databaseErased
  }

  /** The jobs numbered from `first` to `last` are new, one for each of these users who was present, and no other job changed. */
  ghost predicate CleanupSaved(before: Database, after: Database, receipts: seq<User>, first: nat, last: nat) {
    && (forall j: nat :: j in after.jobs <==> j in before.jobs || first <= j < last)
    && (forall j :: j in before.jobs ==> j in after.jobs && after.jobs[j] == before.jobs[j])
    && (forall j: nat :: first <= j < last ==>
          j in after.jobs && after.jobs[j].user in receipts && after.jobs[j].user in before.users
          && CleanupQueued(after.jobs[j], after.jobs[j].user))
    && (forall u :: u in receipts && u in before.users ==> SavedFor(after, u, first, last))
    && (forall i: nat, j: nat :: first <= i < j < last ==>
          i in after.jobs && j in after.jobs && after.jobs[i].user != after.jobs[j].user)
  }

  ghost predicate SavedFor(after: Database, user: User, first: nat, last: nat) {
    exists j: nat :: first <= j < last && j in after.jobs && after.jobs[j].user == user
  }

  /** A completed replay saves one queued and accepted cleanup job for each user it removes, under new ids, and keeps every
      other job. */
  lemma {:induction false} ReplaySavesCleanup(db: Database, receipts: seq<User>, nextJob: nat)
    requires ReplayAll(db, receipts, nextJob).complete && forall j :: j in db.jobs ==> j < nextJob
    ensures var r := ReplayAll(db, receipts, nextJob);
            r.nextJob == nextJob + r.reapplied && CleanupSaved(db, r.db, receipts, nextJob, r.nextJob)
    decreases |receipts|
  {
    hide CleanupSaved;
    if receipts == [] {
      NothingSaved(db, nextJob);
    } else {
      var u, rest := receipts[0], receipts[1..];
      var one := ReplayOne(db, u, nextJob).value;
      var r := ReplayAll(db, receipts, nextJob);
      if u in db.users {
        ReplaySavesCleanup(one, rest, nextJob + 1);
        FirstSaved(db, one, r.db, receipts, nextJob, r.nextJob);
      } else {
        ReplaySavesCleanup(one, rest, nextJob);
        AbsentSaved(db, r.db, receipts, nextJob, r.nextJob);
      }
    }
  }

  lemma NothingSaved(db: Database, nextJob: nat)
    ensures CleanupSaved(db, db, [], nextJob, nextJob)
  {
  }

  lemma FirstSaved(db: Database, one: Database, after: Database, receipts: seq<User>, first: nat, last: nat)
    requires receipts != [] && first < last && first !in db.jobs
    requires one.users == db.users - {receipts[0]} && receipts[0] in db.users
    requires one.jobs == db.jobs[first := ReplayJob(receipts[0])]
    requires CleanupSaved(one, after, receipts[1..], first + 1, last)
    ensures CleanupSaved(db, after, receipts, first, last)
  {
    var u, rest := receipts[0], receipts[1..];
    assert receipts == [u] + rest;
    assert first in after.jobs && after.jobs[first] == one.jobs[first] == ReplayJob(u);
    assert SavedFor(after, u, first, last);
    forall v | SavedFor(after, v, first + 1, last)
      ensures SavedFor(after, v, first, last)
    {
    }
    hide SavedFor;
  }

  lemma AbsentSaved(db: Database, after: Database, receipts: seq<User>, first: nat, last: nat)
    requires receipts != [] && receipts[0] !in db.users && CleanupSaved(db, after, receipts[1..], first, last)
    ensures CleanupSaved(db, after, receipts, first, last)
  {
    assert receipts == [receipts[0]] + receipts[1..];
  }

  /** Replaying over a sanitized database changes nothing. */
  lemma {:induction false} ReplayNothing(db: Database, receipts: seq<User>, nextJob: nat)
    requires forall u :: u in receipts ==> u !in db.users
    ensures ReplayAll(db, receipts, nextJob) == Replayed(db, true, nextJob, 0)
    decreases |receipts|
  {
    if receipts != [] {
      ReplayNothing(db, receipts[1..], nextJob);
    }
  }

  /** Replay is idempotent, and a replay that was interrupted and started over ends where an uninterrupted one does. */
  lemma ReplayIdempotent(db: Database, receipts: seq<User>, nextJob: nat, done: nat, later: nat)
    requires Sound(db) && done <= |receipts| && ReplayAll(db, receipts, nextJob).complete
    ensures var r := ReplayAll(db, receipts, nextJob); ReplayAll(r.db, receipts, later) == Replayed(r.db, true, later, 0)
    ensures var partial := ReplayAll(db, receipts[..done], nextJob);
            var again := ReplayAll(partial.db, receipts, later);
            var r := ReplayAll(db, receipts, nextJob);
            partial.complete && again.complete && again.db.users == r.db.users && again.db.rows == r.db.rows
  {
    var r := ReplayAll(db, receipts, nextJob);
    ReplaySanitizes(db, receipts, nextJob);
    ReplayNothing(r.db, receipts, later);
    assert forall u :: u in receipts[..done] ==> u in receipts;
    ReplaySanitizes(db, receipts[..done], nextJob);
    var partial := ReplayAll(db, receipts[..done], nextJob);
    ReplaySanitizes(partial.db, receipts, later);
    assert Others(Others(db.rows, receipts[..done]), receipts) == Others(db.rows, receipts);
  }

  function ReplaySteps(receipts: seq<User>): seq<Step> {
    if receipts == [] then [] else [Replay(receipts[0])] + ReplaySteps(receipts[1..])
  }

  /** The replay of a ledger is a run of the protocol ... */
  lemma {:induction false} ReplayRuns(s: State, receipts: seq<User>)
    requires !s.serving && (forall u :: u in receipts ==> u in s.receipts)
    requires ReplayAll(s.db, receipts, s.nextJob).complete
    ensures var r := Run(s, ReplaySteps(receipts));
            && r.db == ReplayAll(s.db, receipts, s.nextJob).db && r.nextJob == ReplayAll(s.db, receipts, s.nextJob).nextJob
            && !r.serving && r.receipts == s.receipts
            && (forall u :: u in r.erased <==> u in s.erased || (u in receipts && u in s.db.users))
    decreases |receipts|
  {
    if receipts != [] {
      assert ReplaySteps(receipts)[1..] == ReplaySteps(receipts[1..]);
      ReplayRuns(Apply(s, Replay(receipts[0])), receipts[1..]);
    }
  }

  /** ... and a completed one is what reopening needs. */
  lemma ReplayedMayReopen(s: State, receipts: seq<User>)
    requires Inv(s) && !s.serving && (forall u :: u in receipts <==> u in s.receipts)
    requires ReplayAll(s.db, receipts, s.nextJob).complete
    ensures Apply(Run(s, ReplaySteps(receipts)), Reopen).serving
  {
    ReplayRuns(s, receipts);
    ReplaySanitizes(s.db, receipts, s.nextJob);
  }

  /** Whatever backup is restored: replaying every receipt over it removes exactly the users with a receipt and their rows,
      whenever none of them has authored shared memories, so every user whose erasure ever committed is gone before
      anything reopens. */
  lemma RestoredThenReplayed(steps: seq<Step>, backup: nat, receipts: seq<User>)
    requires var s := Run(Initial, steps);
             && backup < |s.backups| && (forall u :: u in receipts <==> u in s.receipts)
             && forall u :: u in s.receipts && u in s.backups[backup].users ==> u !in s.backups[backup].authors
    ensures var s := Run(Initial, steps);
            var r := Run(Apply(s, Restore(backup)), ReplaySteps(receipts));
            && r.db.users == s.backups[backup].users - s.receipts
            && r.db.rows == Others(s.backups[backup].rows, receipts)
            && (forall u :: u in s.erased ==> u !in r.db.users && forall row :: row in r.db.rows ==> r.db.rows[row] != u)
            && !r.serving && Apply(r, Reopen).serving
  {
    RunKeeps(Initial, steps);
    var s := Run(Initial, steps);
    var t := Apply(s, Restore(backup));
    StepKeeps(s, Restore(backup));
    hide *;
    RestoredSound(s, backup, t);
    ReplaySanitizes(t.db, receipts, t.nextJob);
    ReplayRuns(t, receipts);
    ReplayedMayReopen(t, receipts);
    assert (set u | u in receipts) == s.receipts;
    OthersAbsent(t.db.rows, receipts);
  }

  lemma RestoredSound(s: State, backup: nat, t: State)
    requires Inv(s) && backup < |s.backups| && t == Apply(s, Restore(backup))
    ensures t.db == s.backups[backup] && Sound(t.db) && !t.serving && t.receipts == s.receipts && s.erased <= s.receipts
  {
  }

  lemma OthersAbsent(rows: map<nat, User>, receipts: seq<User>)
    ensures forall r :: r in Others(rows, receipts) ==> Others(rows, receipts)[r] !in receipts
  {
  }

  class RestoredDatabase {
    var db: Database
    var nextJob: nat

    /** replay_erasure_manifest: sanitize an offline restored database; it raises at a blocked receipt and keeps what it
        reapplied before. */
    method ReplayManifest(receipts: seq<User>) returns (reapplied: nat, raised: bool)
      modifies this
      ensures var r := ReplayAll(old(db), receipts, old(nextJob));
              db == r.db && nextJob == r.nextJob && reapplied == r.reapplied && raised == !r.complete
    {
      reapplied, raised := 0, false;
      for i := 0 to |receipts|
        invariant !raised
        invariant var r := ReplayAll(db, receipts[i..], nextJob);
                  ReplayAll(old(db), receipts, old(nextJob)) == r.(reapplied := r.reapplied + reapplied)
      {
        var user := receipts[i];
        assert receipts[i..][0] == user && receipts[i..][1..] == receipts[i + 1..];
        if user !in db.users {
          continue;
        }
        if user in db.authors {
          raised := true;
          return;
        }
        db := EraseRows(db, user, nextJob, ReplayJob(user));
        nextJob := nextJob + 1;
        reapplied := reapplied + 1;
      }
    }
  }
}
