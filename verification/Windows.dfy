/**
 Conversation windows (extract.py): exact message ranges leased under a token of their own, inside the lease of the
 job that extracts them, and retired in the transaction that applies what was extracted.
 */
module Windows {
  import opened Options
  import Jobs

  const WINDOW_SIZE := 10

  datatype Message = Message(session: nat, processed: bool, token: Option<nat>, expires: int)

  /** The job execution a window was claimed for; inline extraction has none. */
  datatype Owner = Inline | Execution(job: nat, holder: nat)

  /** What one claim returned to its caller. */
  datatype Window = Window(owner: Owner, session: nat, ids: seq<nat>)

  datatype State = State(
    jobs: Jobs.State,
    messages: map<nat, Message>,
    nextMessage: nat,
    issued: map<nat, Window>,     // every window ever claimed, by token
    nextToken: nat,
    commits: seq<nat>)            // tokens whose operations were applied, in order

  datatype Step =
    | Job(step: Jobs.Step)
    | Append(session: nat)
    | ClaimWindow(owner: Owner, session: nat, leaseSeconds: nat, now: int)
    | Release(token: nat)
    | Commit(token: nat, now: int)
    | Recover(now: int)

  const Initial := State(Jobs.Initial, map[], 0, map[], 0, [])

  function Unclaimed(m: Message): Message {
    m.(token := None)
  }

  /** Claims of this session whose lease ran out are free again. */
  function Reclaimed(messages: map<nat, Message>, session: nat, now: int): map<nat, Message> {
    map id | id in messages ::
      if messages[id].session == session && !messages[id].processed && messages[id].token.Some? && messages[id].expires <= now
      then Unclaimed(messages[id]) else messages[id]
  }

  predicate Free(messages: map<nat, Message>, id: nat, session: nat) {
    id in messages && messages[id].session == session && !messages[id].processed && messages[id].token.None?
  }

  /** The lowest `room` free messages of the session from `from` on. */
  function Lowest(messages: map<nat, Message>, session: nat, from: nat, until: nat, room: nat): (ids: seq<nat>)
    requires from <= until
    decreases until - from
  {
    if from == until || room == 0 then []
    else if Free(messages, from, session) then [from] + Lowest(messages, session, from + 1, until, room - 1)
    else Lowest(messages, session, from + 1, until, room)
  }

  /** They are free, in order, at most `room`, and no free message is passed over. */
  lemma {:induction false} LowestAreLowest(messages: map<nat, Message>, session: nat, from: nat, until: nat, room: nat)
    requires from <= until
    ensures var ids := Lowest(messages, session, from, until, room);
            && |ids| <= room
            && (forall i :: 0 <= i < |ids| ==> from <= ids[i] < until && Free(messages, ids[i], session))
            && (forall i, j :: 0 <= i < j < |ids| ==> ids[i] < ids[j])
            && (forall id: nat :: from <= id < until && Free(messages, id, session) ==>
                  id in ids || (|ids| == room && forall i :: 0 <= i < |ids| ==> ids[i] < id))
    decreases until - from
  {
    hide Free;
    if from != until && room != 0 {
      if Free(messages, from, session) {
        var rest := Lowest(messages, session, from + 1, until, room - 1);
        LowestAreLowest(messages, session, from + 1, until, room - 1);
        assert Lowest(messages, session, from, until, room) == [from] + rest;
      } else {
        LowestAreLowest(messages, session, from + 1, until, room);
      }
    }
  }

  function Leased(messages: map<nat, Message>, ids: seq<nat>, token: nat, expires: int): map<nat, Message> {
    map id | id in messages :: if id in ids then messages[id].(token := Some(token), expires := expires) else messages[id]
  }

  function Retired(messages: map<nat, Message>, ids: seq<nat>): map<nat, Message> {
    map id | id in messages :: if id in ids then messages[id].(processed := true, token := None) else messages[id]
  }

  /** Every row of the window still carries its token. */
  predicate Holds(s: State, token: nat) {
    && token in s.issued
    && forall i | 0 <= i < |s.issued[token].ids| ::
         var id := s.issued[token].ids[i];
         id in s.messages && !s.messages[id].processed && s.messages[id].token == Some(token)
  }

  predicate Unexpired(s: State, token: nat, now: int)
    requires Holds(s, token)
  {
    forall i | 0 <= i < |s.issued[token].ids| :: s.messages[s.issued[token].ids[i]].expires > now
  }

  predicate Guarded(s: State, owner: Owner, now: int) {
    owner.Execution? ==> Jobs.Current(s.jobs, owner.job, owner.holder, now)
  }

  /** _require_window: the job is still this execution's, and the whole window is still this claim's. */
  predicate MayCommit(s: State, token: nat, now: int) {
    Holds(s, token) && Unexpired(s, token, now) && Guarded(s, s.issued[token].owner, now)
  }

  predicate OfStaleJob(s: State, m: Message, now: int) {
    && !m.processed && m.token.Some? && m.token.value in s.issued
    && var owner := s.issued[m.token.value].owner;
       owner.Execution? && owner.job in s.jobs.jobs && Jobs.Stale(s.jobs.jobs[owner.job], now)
  }

  function Apply(s: State, step: Step): State {
    match step
    case Job(j) => if j.RecoverStale? then s else s.(jobs := Jobs.Apply(s.jobs, j))
    case Append(session) =>
      s.(messages := s.messages[s.nextMessage := Message(session, false, None, 0)], nextMessage := s.nextMessage + 1)
    case ClaimWindow(owner, session, leaseSeconds, now) =>
      var messages := Reclaimed(s.messages, session, now);
      var ids := Lowest(messages, session, 0, s.nextMessage, WINDOW_SIZE);
      if ids == [] then s.(messages := messages)
      else
        s.(messages := Leased(messages, ids, s.nextToken, now + leaseSeconds),
           issued := s.issued[s.nextToken := Window(owner, session, ids)], nextToken := s.nextToken + 1)
    case Release(token) =>
      s.(messages := map id | id in s.messages ::
           if s.messages[id].token == Some(token) && !s.messages[id].processed then Unclaimed(s.messages[id]) else s.messages[id])
    case Commit(token, now) =>
      if !MayCommit(s, token, now) then s
      else s.(messages := Retired(s.messages, s.issued[token].ids), commits := s.commits + [token])
    case Recover(now) =>
      s.(jobs := Jobs.Apply(s.jobs, Jobs.RecoverStale(now)),
         messages := map id | id in s.messages ::
           if OfStaleJob(s, s.messages[id], now) then Unclaimed(s.messages[id]) else s.messages[id])
  }

  function Run(s: State, steps: seq<Step>): State
    decreases |steps|
  {
    if steps == [] then s else Run(Apply(s, steps[0]), steps[1..])
  }

  // ---- what every reachable state satisfies ----

  predicate MessageOk(s: State, id: nat)
    requires id in s.messages
  {
    var m := s.messages[id];
    && id < s.nextMessage
    && (m.token.Some? ==> !m.processed && m.token.value in s.issued && id in s.issued[m.token.value].ids)
  }

  ghost predicate WindowOk(s: State, token: nat)
    requires token in s.issued
  {
    var w := s.issued[token];
    && token < s.nextToken && 1 <= |w.ids| <= WINDOW_SIZE
    && (forall i, j :: 0 <= i < j < |w.ids| ==> w.ids[i] < w.ids[j])
    && (forall id :: id in w.ids ==> id in s.messages && s.messages[id].session == w.session)
  }

  predicate CommitOk(s: State, i: nat)
    requires i < |s.commits|
  {
    s.commits[i] in s.issued
    && forall id | id in s.issued[s.commits[i]].ids :: id in s.messages && s.messages[id].processed
  }

  /** Which commit retired a message. */
  predicate RetiredBy(s: State, id: nat, i: nat) {
    i < |s.commits| && s.commits[i] in s.issued && id in s.issued[s.commits[i]].ids
  }

  ghost predicate Partitioned(s: State) {
    && (forall id :: id in s.messages && s.messages[id].processed ==> exists i :: RetiredBy(s, id, i))
    && (forall id: nat, i: nat, j: nat :: RetiredBy(s, id, i) && RetiredBy(s, id, j) ==> i == j)
  }

  ghost predicate Inv(s: State) {
    && Jobs.Inv(s.jobs)
    && (forall id :: id in s.messages ==> MessageOk(s, id))
    && (forall token :: token in s.issued ==> WindowOk(s, token))
    && (forall i: nat :: i < |s.commits| ==> CommitOk(s, i))
    && Partitioned(s)
  }

  /** A step that only clears or grants claims. */
  ghost predicate ClaimsOnly(s: State, s': State) {
    && s'.messages.Keys == s.messages.Keys && s'.nextMessage == s.nextMessage && s'.commits == s.commits
    && (forall id :: id in s.messages ==> s'.messages[id].session == s.messages[id].session
                                          && s'.messages[id].processed == s.messages[id].processed)
    && (forall token :: token in s.issued ==> token in s'.issued && s'.issued[token] == s.issued[token])
  }

  lemma ClaimsOnlyKeeps(s: State, s': State)
    requires Inv(s) && ClaimsOnly(s, s') && Jobs.Inv(s'.jobs)
    requires forall id :: id in s'.messages ==> MessageOk(s', id)
    requires forall token :: token in s'.issued ==> WindowOk(s', token)
    ensures Inv(s')
  {
    forall i: nat | i < |s'.commits| ensures CommitOk(s', i) { assert CommitOk(s, i); }
    forall id: nat, i: nat
      ensures RetiredBy(s', id, i) <==> RetiredBy(s, id, i)
    {
      if i < |s.commits| { assert CommitOk(s, i); }
    }
  }

  lemma ReclaimKeeps(s: State, session: nat, now: int, r: State)
    requires Inv(s) && r == s.(messages := Reclaimed(s.messages, session, now))
    ensures Inv(r)
  {
    forall id | id in r.messages ensures MessageOk(r, id) { assert MessageOk(s, id); }
    forall token | token in r.issued ensures WindowOk(r, token) { assert WindowOk(s, token); }
    ClaimsOnlyKeeps(s, r);
  }

  lemma LeaseKeeps(s: State, owner: Owner, session: nat, ids: seq<nat>, expires: int, s': State)
    requires Inv(s) && 1 <= |ids| <= WINDOW_SIZE && (forall i, j :: 0 <= i < j < |ids| ==> ids[i] < ids[j])
    requires forall i :: 0 <= i < |ids| ==> Free(s.messages, ids[i], session)
    requires s' == s.(messages := Leased(s.messages, ids, s.nextToken, expires),
                      issued := s.issued[s.nextToken := Window(owner, session, ids)], nextToken := s.nextToken + 1)
    ensures Inv(s')
  {
    forall token | token in s.issued ensures token < s.nextToken { assert WindowOk(s, token); }
    forall id | id in s'.messages ensures MessageOk(s', id) { assert MessageOk(s, id); }
    forall token | token in s'.issued ensures WindowOk(s', token) { if token in s.issued { assert WindowOk(s, token); } }
    ClaimsOnlyKeeps(s, s');
  }

  lemma ClaimWindowKeeps(s: State, step: Step)
    requires Inv(s) && step.ClaimWindow?
    ensures Inv(Apply(s, step))
  {
    hide Inv, Reclaimed, Leased, Free;
    var r := s.(messages := Reclaimed(s.messages, step.session, step.now));
    ReclaimKeeps(s, step.session, step.now, r);
    var ids := Lowest(r.messages, step.session, 0, s.nextMessage, WINDOW_SIZE);
    LowestAreLowest(r.messages, step.session, 0, s.nextMessage, WINDOW_SIZE);
    if ids != [] {
      LeaseKeeps(r, step.owner, step.session, ids, step.now + step.leaseSeconds, Apply(s, step));
    }
  }

  lemma UnclaimKeeps(s: State, step: Step)
    requires Inv(s) && (step.Release? || step.Recover? || step.Job?)
    ensures Inv(Apply(s, step))
  {
    var s' := Apply(s, step);
    forall id | id in s'.messages ensures MessageOk(s', id) { assert MessageOk(s, id); }
    forall token | token in s'.issued ensures WindowOk(s', token) { assert WindowOk(s, token); }
    if step.Recover? {
      Jobs.StepKeeps(s.jobs, Jobs.RecoverStale(step.now));
    } else if step.Job? {
      Jobs.StepKeeps(s.jobs, step.step);
    }
    ClaimsOnlyKeeps(s, s');
  }

  lemma AppendKeeps(s: State, step: Step)
    requires Inv(s) && step.Append?
    ensures Inv(Apply(s, step))
  {
    var s' := Apply(s, step);
    assert forall id :: id in s.messages ==> MessageOk(s, id);
    forall id | id in s'.messages ensures MessageOk(s', id) { if id in s.messages { assert MessageOk(s, id); } }
    forall token | token in s'.issued ensures WindowOk(s', token) { assert WindowOk(s, token); }
    forall i: nat | i < |s'.commits| ensures CommitOk(s', i) { assert CommitOk(s, i); }
    forall id: nat, i: nat ensures RetiredBy(s', id, i) <==> RetiredBy(s, id, i) {}
  }

  lemma CommitKeeps(s: State, token: nat, now: int)
    requires Inv(s) && MayCommit(s, token, now)
    ensures Inv(Apply(s, Commit(token, now)))
  {
    var s' := Apply(s, Commit(token, now));
    var ids := s.issued[token].ids;
    forall id | id in s'.messages ensures MessageOk(s', id) { assert MessageOk(s, id); }
    forall t | t in s'.issued ensures WindowOk(s', t) { assert WindowOk(s, t); }
    assert WindowOk(s, token);
    forall i: nat | i < |s'.commits| ensures CommitOk(s', i) { if i < |s.commits| { assert CommitOk(s, i); } }
    CommitPartitions(s, s', token);
  }

  lemma CommitPartitions(s: State, s': State, token: nat)
    requires Partitioned(s) && Holds(s, token)
    requires forall i: nat :: i < |s.commits| ==> CommitOk(s, i)
    requires s' == s.(messages := Retired(s.messages, s.issued[token].ids), commits := s.commits + [token])
    ensures Partitioned(s')
  {
    var last := |s.commits|;
    forall id: nat, i: nat
      ensures RetiredBy(s', id, i) <==> RetiredBy(s, id, i) || (i == last && id in s.issued[token].ids)
      ensures RetiredBy(s, id, i) ==> id !in s.issued[token].ids
    {
      if RetiredBy(s, id, i) { assert CommitOk(s, i); }
    }
    forall id | id in s'.messages && s'.messages[id].processed
      ensures exists i :: RetiredBy(s', id, i)
    {
      if s.messages[id].processed {
        var i :| RetiredBy(s, id, i);
        assert RetiredBy(s', id, i);
      } else {
        assert RetiredBy(s', id, last);
      }
    }
  }

  lemma StepKeeps(s: State, step: Step)
    requires Inv(s)
    ensures Inv(Apply(s, step))
  {
    match step
    case Append(_) => AppendKeeps(s, step);
    case ClaimWindow(_, _, _, _) => ClaimWindowKeeps(s, step);
    case Commit(token, now) => if MayCommit(s, token, now) { CommitKeeps(s, token, now); }
    case _ => UnclaimKeeps(s, step);
  }

  lemma {:induction false} RunKeeps(s: State, steps: seq<Step>)
    requires Inv(s)
    ensures Inv(Run(s, steps))
    decreases |steps|
  {
    if steps != [] {
      StepKeeps(s, steps[0]);
      RunKeeps(Apply(s, steps[0]), steps[1..]);
    }
  }

  // ---- main results ----

  /** In every interleaving the committed windows partition the processed messages: each processed message was retired
      by exactly one commit, a commit retires all of its window, and no message is in two windows that could still commit. */
  lemma CommitsPartitionProcessed(steps: seq<Step>, id: nat)
    requires id in Run(Initial, steps).messages
    ensures var s := Run(Initial, steps);
            && (s.messages[id].processed <==> exists i :: RetiredBy(s, id, i))
            && (forall i: nat, j: nat :: RetiredBy(s, id, i) && RetiredBy(s, id, j) ==> i == j)
            && (forall t: nat, u: nat :: Holds(s, t) && Holds(s, u) && id in s.issued[t].ids && id in s.issued[u].ids ==> t == u)
  {
    RunKeeps(Initial, steps);
    var s := Run(Initial, steps);
    if i :| RetiredBy(s, id, i) {
      assert CommitOk(s, i);
    }
  }

  predicate Lost(s: State, token: nat) {
    token in s.issued && !Holds(s, token)
  }

  /** A message of the window that no longer carries its token. */
  predicate Gone(s: State, token: nat, id: nat) {
    token in s.issued && id in s.issued[token].ids && id in s.messages
    && (s.messages[id].processed || s.messages[id].token != Some(token))
  }

  lemma GoneStep(s: State, step: Step, token: nat, id: nat)
    requires token in s.issued && token < s.nextToken && Gone(s, token, id)
    ensures Gone(Apply(s, step), token, id)
    ensures Apply(s, step).commits == s.commits
            || (step.Commit? && Apply(s, step).commits == s.commits + [step.token] && step.token != token)
  {
  }

  lemma LostStep(s: State, step: Step, token: nat)
    requires Inv(s) && Lost(s, token)
    ensures Lost(Apply(s, step), token)
    ensures Apply(s, step).commits == s.commits
            || (step.Commit? && Apply(s, step).commits == s.commits + [step.token] && step.token != token)
  {
    assert WindowOk(s, token);
    var ids := s.issued[token].ids;
    var i :| 0 <= i < |ids|
             && !(ids[i] in s.messages && !s.messages[ids[i]].processed && s.messages[ids[i]].token == Some(token));
    assert ids[i] in ids;
    GoneStep(s, step, token, ids[i]);
    hide Inv, Apply;
  }

  /** A window that lost any of its messages, to expiry, release, recovery or a commit, is never committed again. */
  lemma {:induction false} LostForever(s: State, steps: seq<Step>, token: nat)
    requires Inv(s) && Lost(s, token)
    ensures Lost(Run(s, steps), token) && s.commits <= Run(s, steps).commits
    ensures forall i :: |s.commits| <= i < |Run(s, steps).commits| ==> Run(s, steps).commits[i] != token
    decreases |steps|
  {
    if steps != [] {
      LostStep(s, steps[0], token);
      StepKeeps(s, steps[0]);
      LostForever(Apply(s, steps[0]), steps[1..], token);
    }
  }

  /** The window is still held and its messages are as they were. */
  predicate Kept(s: State, s': State, token: nat) {
    && Holds(s, token) && Holds(s', token) && s'.issued[token] == s.issued[token]
    && forall i | 0 <= i < |s.issued[token].ids| :: s'.messages[s.issued[token].ids[i]] == s.messages[s.issued[token].ids[i]]
  }

  lemma KeptThrough(s: State, m: State, s': State, token: nat)
    requires Kept(s, m, token) && Kept(m, s', token)
    ensures Kept(s, s', token)
  {
  }

  /** A window held after a step was held before it, and the step touched none of its messages. */
  lemma HeldBefore(s: State, step: Step, token: nat)
    requires Inv(s) && token in s.issued && Holds(Apply(s, step), token)
    ensures Kept(s, Apply(s, step), token)
  {
    if !Holds(s, token) {
      LostStep(s, step, token);
    }
    assert WindowOk(s, token);
    var ids := s.issued[token].ids;
    forall i | 0 <= i < |ids|
      ensures Apply(s, step).messages[ids[i]] == s.messages[ids[i]]
    {
      assert ids[i] in ids;
      SameMessage(s, step, token, ids[i]);
    }
    assert Apply(s, step).issued[token] == s.issued[token];
    hide Inv, Apply;
  }

  lemma SameMessage(s: State, step: Step, token: nat, id: nat)
    requires token < s.nextToken && id in s.messages && id < s.nextMessage
    requires s.messages[id].token == Some(token) && !s.messages[id].processed
    requires id in Apply(s, step).messages && Apply(s, step).messages[id].token == Some(token)
    ensures Apply(s, step).messages[id] == s.messages[id]
  {
  }

  /** The commit of a window: allowed, and exactly its messages become processed. */
  ghost predicate Applied(s: State, step: Step, token: nat) {
    && step.Commit? && step.token == token && MayCommit(s, token, step.now)
    && forall id :: id in s.messages ==>
         (Apply(s, step).messages[id].processed <==> s.messages[id].processed || id in s.issued[token].ids)
  }

  lemma KeptHere(s: State, step: Step, token: nat)
    requires Applied(s, step, token)
    ensures Kept(s, s, token)
  {
    hide Apply;
  }

  lemma KeptFirst(s: State, step: Step, token: nat)
    requires Inv(s) && token in s.issued && Kept(Apply(s, step), Apply(s, step), token)
    ensures Kept(s, s, token) && Kept(s, Apply(s, step), token)
  {
    HeldBefore(s, step, token);
    hide Apply, Inv;
  }

  lemma IssuedStays(s: State, step: Step, token: nat)
    requires token in s.issued
    ensures token in Apply(s, step).issued
  {
  }

  lemma CommittedNow(s: State, step: Step, token: nat)
    requires token !in s.commits && token in Apply(s, step).commits
    ensures Applied(s, step, token)
  {
  }

  /** A window that is committed in some run is held, whole and unchanged, in every state from its claim to the one step
      that commits it, and that step finds it unexpired and its execution's lease live. */
  lemma {:induction false} CommitFenced(s: State, steps: seq<Step>, token: nat) returns (j: nat)
    requires Inv(s) && token in s.issued && token !in s.commits && token in Run(s, steps).commits
    ensures j < |steps| && Applied(Run(s, steps[..j]), steps[j], token)
    ensures forall k :: 0 <= k <= j ==> Kept(s, Run(s, steps[..k]), token)
    decreases |steps|
  {
    hide Inv, Kept, Applied, Apply;
    assert steps != [];
    var s', rest := Apply(s, steps[0]), steps[1..];
    assert steps[..0] == [];
    if token in s'.commits {
      j := 0;
      CommittedNow(s, steps[0], token);
      KeptHere(s, steps[0], token);
    } else {
      StepKeeps(s, steps[0]);
      IssuedStays(s, steps[0], token);
      var j' := CommitFenced(s', rest, token);
      j := j' + 1;
      assert rest[..0] == [];
      KeptFirst(s, steps[0], token);
      forall k | 0 <= k <= j
        ensures Kept(s, Run(s, steps[..k]), token)
      {
        if k > 0 {
          assert steps[..k][1..] == rest[..k - 1];
          KeptThrough(s, s', Run(s', rest[..k - 1]), token);
        }
      }
      assert steps[..j][1..] == rest[..j'];
    }
  }

  /** Recovery of a stale job takes every window of its executions away for good: what was extracted under them can
      never be applied. */
  lemma RecoveredWindowsDie(s: State, now: int, steps: seq<Step>, token: nat)
    requires Inv(s) && token in s.issued && s.issued[token].owner.Execution?
    requires s.issued[token].owner.job in s.jobs.jobs && Jobs.Stale(s.jobs.jobs[s.issued[token].owner.job], now)
    ensures var r := Run(Apply(s, Recover(now)), steps);
            Lost(r, token) && forall i :: |s.commits| <= i < |r.commits| ==> r.commits[i] != token
  {
    var s' := Apply(s, Recover(now));
    assert WindowOk(s, token);
    var id := s.issued[token].ids[0];
    assert id in s.issued[token].ids;
    assert s'.messages[id].processed || s'.messages[id].token != Some(token);
    assert !Holds(s', token);
    StepKeeps(s, Recover(now));
    LostForever(s', steps, token);
  }

  /** What a claim at `now` may take: an unprocessed message of the session that nobody claimed, or whose claim ran out. */
  predicate Available(m: Message, session: nat, now: int) {
    m.session == session && !m.processed && (m.token.None? || m.expires <= now)
  }

  /** The available messages a claim took: in order, at most ten, and none lower was left out. */
  ghost predicate Takes(before: map<nat, Message>, below: nat, session: nat, now: int, ids: seq<nat>) {
    && |ids| <= 10
    && (forall i :: 0 <= i < |ids| ==> ids[i] < below && ids[i] in before && Available(before[ids[i]], session, now))
    && (forall i, j :: 0 <= i < j < |ids| ==> ids[i] < ids[j])
    && (forall id: nat :: id < below && id in before && Available(before[id], session, now) && id !in ids ==>
          |ids| == 10 && forall i :: 0 <= i < |ids| ==> ids[i] < id)
  }

  /** After a claim: what it took is leased under the token until `until`, what else it could have taken is unclaimed, and
      every other message, such as one claimed until later, is as it was. */
  ghost predicate Claimed(before: map<nat, Message>, after: map<nat, Message>, session: nat, now: int, ids: seq<nat>, token: nat,
                          until: int) {
    && after.Keys == before.Keys
    && (forall id :: id in before ==>
          after[id] == if id in ids then before[id].(token := Some(token), expires := until)
                       else if Available(before[id], session, now) then before[id].(token := None)
                       else before[id])
  }

  /** A claim takes the lowest ten available messages of its session under a new token, and touches nothing else. */
  lemma ClaimTakes(s: State, owner: Owner, session: nat, leaseSeconds: nat, now: int) returns (ids: seq<nat>)
    ensures var s' := Apply(s, ClaimWindow(owner, session, leaseSeconds, now));
            && Takes(s.messages, s.nextMessage, session, now, ids)
            && Claimed(s.messages, s'.messages, session, now, ids, s.nextToken, now + leaseSeconds)
            && s'.nextMessage == s.nextMessage && s'.commits == s.commits && s'.jobs == s.jobs
            && (if ids == [] then s'.issued == s.issued && s'.nextToken == s.nextToken
                else s'.issued == s.issued[s.nextToken := Window(owner, session, ids)] && s'.nextToken == s.nextToken + 1)
  {
    var messages := Reclaimed(s.messages, session, now);
    ids := Lowest(messages, session, 0, s.nextMessage, WINDOW_SIZE);
    LowestAreLowest(messages, session, 0, s.nextMessage, WINDOW_SIZE);
    FreeIsAvailable(s.messages, session, now);
    hide Lowest;
    assert Takes(s.messages, s.nextMessage, session, now, ids) by { hide Reclaimed, Free, Available; }
  }

  lemma FreeIsAvailable(messages: map<nat, Message>, session: nat, now: int)
    ensures forall id {:trigger Free(Reclaimed(messages, session, now), id, session)} ::
              Free(Reclaimed(messages, session, now), id, session) <==> id in messages && Available(messages[id], session, now)
  {
  }

  /** So a live window outlasts every claim at that time, whoever makes it. */
  lemma ClaimSparesLive(s: State, token: nat, owner: Owner, session: nat, leaseSeconds: nat, now: int)
    requires Inv(s) && Holds(s, token) && Unexpired(s, token, now)
    ensures var s' := Apply(s, ClaimWindow(owner, session, leaseSeconds, now));
            Kept(s, s', token) && Unexpired(s', token, now)
  {
    var ids := ClaimTakes(s, owner, session, leaseSeconds, now);
    assert WindowOk(s, token);
    var held := s.issued[token].ids;
    forall i | 0 <= i < |held|
      ensures held[i] in s.messages && !Available(s.messages[held[i]], session, now) && held[i] !in ids
    {
    }
    hide Inv, Apply;
  }

  /** A claim leases a whole window under a new token, or there was nothing left to claim. */
  lemma ClaimedWindow(s: State, owner: Owner, session: nat, leaseSeconds: nat, now: int)
    requires Inv(s)
    ensures var s' := Apply(s, ClaimWindow(owner, session, leaseSeconds, now));
            if s'.nextToken == s.nextToken then forall id :: id in s'.messages ==> !Free(s'.messages, id, session)
            else Holds(s', s.nextToken)
  {
    var messages := Reclaimed(s.messages, session, now);
    assert forall id :: id in s.messages ==> MessageOk(s, id);
    LowestAreLowest(messages, session, 0, s.nextMessage, WINDOW_SIZE);
    hide Inv, Reclaimed;
  }

  /** A message arrives unclaimed, in the session it was written in, beside the others. */
  lemma AppendedIsAvailable(s: State, session: nat, now: int)
    requires Inv(s)
    ensures var s' := Apply(s, Append(session));
            && s.nextMessage !in s.messages && s.nextMessage in s'.messages
            && Available(s'.messages[s.nextMessage], session, now)
            && forall id :: id in s.messages ==> id in s'.messages && s'.messages[id] == s.messages[id]
  {
    assert forall id :: id in s.messages ==> MessageOk(s, id);
  }

  // ---- the jobs behind the windows ----

  /** Recovery frees the unprocessed messages claimed by executions of stale jobs, and changes no other message; the jobs are
      recovered with it. */
  lemma RecoveryFrees(s: State, now: int, id: nat)
    requires Inv(s) && id in s.messages
    ensures var s', m := Apply(s, Recover(now)), s.messages[id];
            && s'.jobs == Jobs.Apply(s.jobs, Jobs.RecoverStale(now)) && s'.messages.Keys == s.messages.Keys
            && s'.messages[id] == match m.token
                                  case None => m
                                  case Some(token) => if StaleOwner(s, s.issued[token].owner, now) then m.(token := None) else m
  {
    assert MessageOk(s, id);
  }

  /** An execution of a job that runs without a live lease. */
  predicate StaleOwner(s: State, owner: Owner, now: int) {
    && owner.Execution? && owner.job in s.jobs.jobs
    && var job := s.jobs.jobs[owner.job];
       job.status.Running? && !(job.lease.Some? && job.lease.value > now)
  }

  function JobStep(step: Step): (steps: seq<Jobs.Step>) {
    match step
    case Job(j) => if j.RecoverStale? then [] else [j]
    case Recover(now) => [Jobs.RecoverStale(now)]
    case _ => []
  }

  /** The job steps of a run: its own, and the recoveries. */
  function JobSteps(steps: seq<Step>): seq<Jobs.Step> {
    if steps == [] then [] else JobStep(steps[0]) + JobSteps(steps[1..])
  }

  /** The jobs under a run of windows are a run of the job protocol, so all of its laws hold of them. */
  lemma {:induction false} JobsAreARun(s: State, steps: seq<Step>)
    ensures Run(s, steps).jobs == Jobs.Run(s.jobs, JobSteps(steps))
    decreases |steps|
  {
    if steps != [] {
      var first, rest := JobStep(steps[0]), JobSteps(steps[1..]);
      JobsAreARun(Apply(s, steps[0]), steps[1..]);
      assert JobSteps(steps) == first + rest;
      if first == [] {
        assert first + rest == rest;
      } else {
        assert (first + rest)[0] == first[0] && (first + rest)[1..] == rest;
      }
    }
  }

  // ---- the message rows as they are updated ----

  class MessageStore {
    var jobs: Jobs.State
    var messages: map<nat, Message>
    var nextMessage: nat
    var issued: map<nat, Window>
    var nextToken: nat
    var commits: seq<nat>

    ghost function View(): State
      reads this
    {
      State(jobs, messages, nextMessage, issued, nextToken, commits)
    }

    method LowestFree(session: nat) returns (ids: seq<nat>)
      ensures ids == Lowest(messages, session, 0, nextMessage, WINDOW_SIZE)
    {
      hide Free;
      ids := [];
      var id := 0;
      while id < nextMessage && |ids| < WINDOW_SIZE
        invariant 0 <= id <= nextMessage && |ids| <= WINDOW_SIZE
        invariant ids + Lowest(messages, session, id, nextMessage, WINDOW_SIZE - |ids|)
                  == Lowest(messages, session, 0, nextMessage, WINDOW_SIZE)
      {
        if Free(messages, id, session) {
          ghost var rest := Lowest(messages, session, id + 1, nextMessage, WINDOW_SIZE - |ids| - 1);
          assert ids + ([id] + rest) == ids + [id] + rest;
          ids := ids + [id];
        }
        id := id + 1;
      }
    }

    /** claim_window: free what expired, then lease the lowest free messages of the session, at most ten. */
    method ClaimWindow(owner: Owner, session: nat, leaseSeconds: nat, now: int) returns (window: Option<nat>)
      modifies this`messages, this`issued, this`nextToken
      ensures View() == Apply(old(View()), Step.ClaimWindow(owner, session, leaseSeconds, now))
      ensures window == if nextToken == old(nextToken) then None else Some(old(nextToken))
      ensures var ids := if window.None? then [] else issued[window.value].ids;
              && Takes(old(messages), nextMessage, session, now, ids) && (window.None? <==> ids == [])
              && Claimed(old(messages), messages, session, now, ids, old(nextToken), now + leaseSeconds)
    {
      ghost var taken := ClaimTakes(View(), owner, session, leaseSeconds, now);
      hide Takes, Claimed, Available;
      hide Free, Leased, Reclaimed;
      messages := Reclaimed(messages, session, now);
      var ids := LowestFree(session);
      if ids == [] {
        return None;
      }
      messages := Leased(messages, ids, nextToken, now + leaseSeconds);
      issued := issued[nextToken := Window(owner, session, ids)];
      window := Some(nextToken);
      nextToken := nextToken + 1;
    }

    /** release_window: give back whatever of the claim has not been taken or retired. */
    method ReleaseWindow(token: nat)
      modifies this`messages
      ensures View() == Apply(old(View()), Release(token))
      ensures messages.Keys == old(messages).Keys
      ensures forall id :: id in messages ==>
                messages[id] == if old(messages)[id].token == Some(token) && !old(messages)[id].processed
                                then old(messages)[id].(token := None) else old(messages)[id]
    {
      messages := map id | id in messages ::
        if messages[id].token == Some(token) && !messages[id].processed then Unclaimed(messages[id]) else messages[id];
    }

    /** _require_window, row by row. */
    method RequireWindow(token: nat, now: int) returns (ours: bool)
      requires token in issued
      ensures ours <==> MayCommit(View(), token, now)
      ensures var w := issued[token];
              ours <==> && (w.owner.Execution? ==> Jobs.Current(jobs, w.owner.job, w.owner.holder, now))
                        && forall id :: id in w.ids ==> id in messages && !messages[id].processed
                                                        && messages[id].token == Some(token) && messages[id].expires > now
    {
      var w := issued[token];
      ours := w.owner.Inline? || Jobs.Current(jobs, w.owner.job, w.owner.holder, now);
      for i := 0 to |w.ids|
        invariant ours ==> Guarded(View(), w.owner, now)
        invariant ours <==> Guarded(View(), w.owner, now) && forall j | 0 <= j < i ::
                    w.ids[j] in messages && !messages[w.ids[j]].processed && messages[w.ids[j]].token == Some(token)
                    && messages[w.ids[j]].expires > now
      {
        var id := w.ids[i];
        ours := ours && id in messages && !messages[id].processed && messages[id].token == Some(token)
                && messages[id].expires > now;
      }
    }

    /** The commit block of run_extraction: fence, apply, retire, in one transaction. */
    method CommitWindow(token: nat, now: int) returns (applied: bool)
      requires token in issued
      modifies this`messages, this`commits
      ensures View() == Apply(old(View()), Commit(token, now))
      ensures applied <==> MayCommit(old(View()), token, now)
      ensures messages.Keys == old(messages).Keys && commits == old(commits) + if applied then [token] else []
      ensures forall id :: id in messages ==>
                messages[id] == if applied && id in issued[token].ids then old(messages)[id].(processed := true, token := None)
                                else old(messages)[id]
    {
      applied := RequireWindow(token, now);
      if applied {
        messages := Retired(messages, issued[token].ids);
        commits := commits + [token];
      }
    }
  }
}
