/**
 Dreaming (dream.py): clusters are planned over the memories changed since the watermark, each is one model call, and the
 watermark moves only over what was dealt with.
 */
module Dream {
  import opened Options

  type Id = nat

  /** Where a memory stands in the order dreams go through them. */
  datatype Position = Position(at: int, id: Id)

  predicate Less(p: Position, q: Position) {
    p.at < q.at || (p.at == q.at && p.id < q.id)
  }

  predicate AtMost(p: Position, q: Position) {
    p == q || Less(p, q)
  }

  // ---- one plan ----

  /** A chosen cluster: the index of the fresh memory it grew from, and its members. */
  datatype Cluster = Cluster(seed: nat, members: set<Id>)

  /** The live memories near a fresh one, itself included, as the index and the store answered. */
  type Neighbourhood = nat -> set<Id>

  predicate CoveredBy(members: set<Id>, clusters: seq<Cluster>) {
    exists c :: 0 <= c < |clusters| && members <= clusters[c].members
  }

  /** Why a considered memory needs no further call: it has no neighbour, or it is inside a cluster chosen up to it. */
  predicate Explained(near: Neighbourhood, i: nat, clusters: seq<Cluster>) {
    |near(i)| < 2 || exists c :: 0 <= c < |clusters| && clusters[c].seed <= i && near(i) <= clusters[c].members
  }

  ghost predicate Planned(near: Neighbourhood, considered: nat, clusters: seq<Cluster>) {
    && (forall c :: 0 <= c < |clusters| ==>
          clusters[c].seed < considered && clusters[c].members == near(clusters[c].seed) && |clusters[c].members| >= 2)
    && (forall c, d :: 0 <= c < d < |clusters| ==>
          clusters[c].seed < clusters[d].seed && !(clusters[d].members <= clusters[c].members))
    && (forall i: nat :: i < considered ==> Explained(near, i, clusters))
  }

  /** plan_clusters: stops once `maxClusters` are chosen, and drops a cluster inside one already chosen. */
  method PlanClusters(total: nat, near: Neighbourhood, maxClusters: nat) returns (clusters: seq<Cluster>, considered: nat)
    ensures considered <= total && |clusters| <= maxClusters && Planned(near, considered, clusters)
    ensures considered < total ==> |clusters| == maxClusters
  {
    clusters, considered := [], 0;
    for index := 0 to total
      invariant considered == index && |clusters| <= maxClusters && Planned(near, considered, clusters)
    {
      if |clusters| >= maxClusters {
        break;
      }
      considered := index + 1;
      var members := near(index);
      if |members| < 2 {
        ExplainedStill(near, index, clusters, clusters);
        continue;
      }
      if CoveredBy(members, clusters) {
        ExplainedStill(near, index, clusters, clusters);
        continue;
      }
      ghost var chosen := clusters + [Cluster(index, members)];
      ExplainedStill(near, index, clusters, chosen);
      assert chosen[|clusters|].seed <= index && near(index) <= chosen[|clusters|].members;
      clusters := clusters + [Cluster(index, members)];
    }
  }

  lemma ExplainedStill(near: Neighbourhood, index: nat, clusters: seq<Cluster>, more: seq<Cluster>)
    requires clusters <= more && forall i: nat :: i < index ==> Explained(near, i, clusters)
    ensures forall i: nat :: i < index ==> Explained(near, i, more)
  {
    forall i: nat | i < index
      ensures Explained(near, i, more)
    {
      assert Explained(near, i, clusters);
      if |near(i)| >= 2 {
        var c :| 0 <= c < |clusters| && clusters[c].seed <= i && near(i) <= clusters[c].members;
        assert more[c] == clusters[c];
      }
    }
  }

  // ---- one run ----

  /** How the call for one cluster ended: applied, failed, or refused by a budget, which ends the run. */
  datatype Call = Applied | Failed | Refused

  /** The run marks `done` of the fresh memories: every one of them is explained by a cluster that was called and applied,
      and the first that is not marked, if any was considered, is the first seed whose call failed. */
  ghost predicate Accounted(near: Neighbourhood, considered: nat, clusters: seq<Cluster>, calls: seq<Call>, done: nat) {
    && done <= considered && |calls| <= |clusters|
    && (forall i: nat :: i < done ==>
          |near(i)| < 2
          || exists c :: 0 <= c < |calls| && calls[c].Applied? && clusters[c].seed <= i && near(i) <= clusters[c].members)
    && (if done == considered then calls == seq(|clusters|, _ => Applied)
        else exists c :: 0 <= c < |calls| && !calls[c].Applied? && clusters[c].seed == done
               && forall b :: 0 <= b < c ==> calls[b].Applied?)
  }

  /** The loop of run over the planned clusters; `outcome` is what each call would answer. */
  method Process(near: Neighbourhood, considered: nat, clusters: seq<Cluster>, outcome: nat -> Call)
    returns (done: nat, calls: seq<Call>)
    requires Planned(near, considered, clusters)
    ensures Accounted(near, considered, clusters, calls, done)
    ensures forall c :: 0 <= c < |calls| ==> calls[c] == outcome(c)
    ensures |calls| < |clusters| ==> calls != [] && calls[|calls| - 1].Refused?
  {
    hide *;
    done, calls := considered, [];
    NoFailure(clusters, considered);
    for c := 0 to |clusters|
      invariant |calls| == c && forall b :: 0 <= b < c ==> calls[b] == outcome(b) && !calls[b].Refused?
      invariant done == FirstFailure(clusters, calls, considered)
    {
      FirstFailureNext(clusters, calls, outcome(c), considered);
      calls := calls + [outcome(c)];
      if !calls[c].Applied? {
        done := if done < clusters[c].seed then done else clusters[c].seed;
        if calls[c].Refused? {
          break;
        }
      }
    }
    MarksAccounted(near, considered, clusters, calls, done);
  }

  /** The seed of the first call that did not apply, or `considered`. */
  function FirstFailure(clusters: seq<Cluster>, calls: seq<Call>, considered: nat): nat
    requires |calls| <= |clusters|
  {
    if calls == [] then considered
    else
      var last := |calls| - 1;
      var before := FirstFailure(clusters, calls[..last], considered);
      if calls[last].Applied? || before < clusters[last].seed then before else clusters[last].seed
  }

  lemma {:induction false} FirstFailureBelow(clusters: seq<Cluster>, calls: seq<Call>, considered: nat)
    requires |calls| <= |clusters|
    ensures FirstFailure(clusters, calls, considered) <= considered
  {
    if calls != [] {
      FirstFailureBelow(clusters, calls[..|calls| - 1], considered);
    }
  }

  lemma NoFailure(clusters: seq<Cluster>, considered: nat)
    ensures FirstFailure(clusters, [], considered) == considered
  {
  }

  lemma FirstFailureNext(clusters: seq<Cluster>, calls: seq<Call>, call: Call, considered: nat)
    requires |calls| < |clusters|
    ensures var before, seed := FirstFailure(clusters, calls, considered), clusters[|calls|].seed;
            FirstFailure(clusters, calls + [call], considered) == if call.Applied? || before < seed then before else seed
  {
    assert (calls + [call])[..|calls|] == calls;
  }

  lemma {:induction false} FirstFailureIs(near: Neighbourhood, considered: nat, clusters: seq<Cluster>, calls: seq<Call>)
    requires Planned(near, considered, clusters) && |calls| <= |clusters|
    ensures var done := FirstFailure(clusters, calls, considered);
            && done <= considered
            && (forall c :: 0 <= c < |calls| && clusters[c].seed < done ==> calls[c].Applied?)
            && (if forall c :: 0 <= c < |calls| ==> calls[c].Applied? then done == considered
                else exists c :: 0 <= c < |calls| && !calls[c].Applied? && clusters[c].seed == done
                       && forall b :: 0 <= b < c ==> calls[b].Applied?)
  {
    if calls != [] {
      var last := |calls| - 1;
      var front := calls[..last];
      FirstFailureIs(near, considered, clusters, front);
      var before := FirstFailure(clusters, front, considered);
      if c :| 0 <= c < |front| && !front[c].Applied? && clusters[c].seed == before && forall b :: 0 <= b < c ==> front[b].Applied? {
        assert !calls[c].Applied? && before < clusters[last].seed && forall b :: 0 <= b < c ==> calls[b] == front[b];
      } else {
        assert forall b :: 0 <= b < last ==> calls[b] == front[b];
      }
    }
  }

  lemma MarksAccounted(near: Neighbourhood, considered: nat, clusters: seq<Cluster>, calls: seq<Call>, done: nat)
    requires Planned(near, considered, clusters) && |calls| <= |clusters|
    requires done == FirstFailure(clusters, calls, considered)
    requires |calls| < |clusters| ==> calls != [] && calls[|calls| - 1].Refused?
    ensures Accounted(near, considered, clusters, calls, done)
  {
    FirstFailureIs(near, considered, clusters, calls);
    hide FirstFailure;
    forall i: nat | i < done && |near(i)| >= 2
      ensures exists c :: 0 <= c < |calls| && calls[c].Applied? && clusters[c].seed <= i && near(i) <= clusters[c].members
    {
      assert Explained(near, i, clusters);
      var c :| 0 <= c < |clusters| && clusters[c].seed <= i && near(i) <= clusters[c].members;
    }
  }

  // ---- dreams over time ----

  /** Why a position was marked: the run that marked it, and what was near it then. */
  datatype Deal = Deal(run: nat, near: set<Id>)

  /** The live premise memories by their last change, the runs that have read their fresh memories, the watermark, the
      clusters that were called and applied, and the positions that were marked. */
  datatype State = State(
    memories: map<Id, int>,
    runs: map<nat, seq<Position>>,
    nextRun: nat,
    watermark: Option<Position>,     // last_dreamed: the greatest recorded one
    applied: set<(nat, Cluster)>,
    marked: map<Position, Deal>)

  datatype Step =
    | Write(id: Id, at: int)                       // a memory appears, or changes at this time
    | Retire(id: Id)                               // archived, superseded or expired
    | Begin(recent: seq<Position>, limit: nat)     // a run reads what changed since the watermark
    | Complete(run: nat, near: Neighbourhood, considered: nat, clusters: seq<Cluster>, calls: seq<Call>, done: nat)
    | Abandon(run: nat)                            // dry, failed or nothing done: no watermark

  const Initial := State(map[], map[], 0, None, {}, map[])

  predicate Live(s: State, p: Position) {
    p.id in s.memories && s.memories[p.id] == p.at
  }

  predicate Past(p: Position, mark: Option<Position>) {
    mark.Some? ==> Less(mark.value, p)
  }

  predicate Reached(p: Position, mark: Option<Position>) {
    mark.Some? && AtMost(p, mark.value)
  }

  /** The first `limit` live positions past the watermark, in order. */
  ghost predicate IsFresh(s: State, recent: seq<Position>, limit: nat) {
    && |recent| <= limit
    && (forall i :: 0 <= i < |recent| ==> Live(s, recent[i]) && Past(recent[i], s.watermark))
    && (forall i, j :: 0 <= i < j < |recent| ==> Less(recent[i], recent[j]))
    && (forall p :: Live(s, p) && Past(p, s.watermark) ==>
          p in recent || (|recent| == limit && forall i :: 0 <= i < |recent| ==> Less(recent[i], p)))
  }

  function Later(a: Option<Position>, b: Position): Option<Position> {
    if a.None? || Less(a.value, b) then Some(b) else a
  }

  function Deals(positions: seq<Position>, run: nat, near: Neighbourhood): map<Position, Deal> {
    if positions == [] then map[]
    else
      var last := |positions| - 1;
      Deals(positions[..last], run, near)[positions[last] := Deal(run, near(last))]
  }

  lemma {:induction false} DealsOf(positions: seq<Position>, run: nat, near: Neighbourhood)
    ensures forall p :: p in Deals(positions, run, near) <==> p in positions
    ensures forall p :: p in positions ==>
              exists i :: 0 <= i < |positions| && positions[i] == p && Deals(positions, run, near)[p] == Deal(run, near(i))
  {
    if positions != [] {
      var last := |positions| - 1;
      DealsOf(positions[..last], run, near);
      forall p | p in positions
        ensures exists i :: 0 <= i < |positions| && positions[i] == p && Deals(positions, run, near)[p] == Deal(run, near(i))
      {
        if p != positions[last] {
          assert p in positions[..last];
          var i :| 0 <= i < last && positions[..last][i] == p && Deals(positions[..last], run, near)[p] == Deal(run, near(i));
          assert positions[i] == p;
        }
      }
    }
  }

  ghost function Apply(s: State, step: Step): State {
    match step
    case Write(id, at) => s.(memories := s.memories[id := at])
    case Retire(id) => s.(memories := s.memories - {id})
    case Begin(recent, limit) =>
      if !IsFresh(s, recent, limit) then s else s.(runs := s.runs[s.nextRun := recent], nextRun := s.nextRun + 1)
    case Complete(r, near, considered, clusters, calls, done) =>
      if r !in s.runs || considered > |s.runs[r]| || !Accounted(near, considered, clusters, calls, done) || done == 0 then s
      else
        s.(runs := s.runs - {r}, watermark := Later(s.watermark, s.runs[r][done - 1]),
           applied := s.applied + (set c | 0 <= c < |calls| && calls[c].Applied? :: (r, clusters[c])),
           marked := s.marked + Deals(s.runs[r][..done], r, near))
    case Abandon(r) => s.(runs := s.runs - {r})
  }

  ghost function Run(s: State, steps: seq<Step>): State
    decreases |steps|
  {
    if steps == [] then s else Run(Apply(s, steps[0]), steps[1..])
  }

  /** A run that would mark past this position without having read it. */
  predicate Overtakes(recent: seq<Position>, p: Position) {
    p !in recent && exists i :: 0 <= i < |recent| && Less(p, recent[i])
  }

  /** Marked, or nothing recorded or under way has gone past this position without reading it. */
  ghost predicate Ahead(s: State, p: Position) {
    p in s.marked || (!Reached(p, s.watermark) && forall r :: r in s.runs ==> !Overtakes(s.runs[r], p))
  }

  predicate RunOk(recent: seq<Position>) {
    forall i, j :: 0 <= i < j < |recent| ==> Less(recent[i], recent[j])
  }

  ghost predicate Inv(s: State) {
    && (forall r :: r in s.runs ==> r < s.nextRun && RunOk(s.runs[r]))
    && (forall p :: p in s.marked ==> Reached(p, s.watermark) && Settled(s, s.marked[p]))
  }

  /** It had no neighbour, or it and its neighbours are inside a cluster of that run that was called and applied. */
  ghost predicate Settled(s: State, deal: Deal) {
    |deal.near| < 2 || exists c :: (deal.run, c) in s.applied && deal.near <= c.members
  }

  predicate Rewrites(step: Step, id: Id) {
    (step.Write? || step.Retire?) && step.id == id
  }

  predicate Completes(s: State, step: Step) {
    step.Complete? && step.run in s.runs && 0 < step.done <= |s.runs[step.run]|
  }

  /** A completed run marks exactly what it counted as done. */
  lemma CompleteMarks(s: State, step: Step)
    requires step.Complete? && Apply(s, step) != s
    ensures Completes(s, step) && forall p :: p in Apply(s, step).marked <==> p in s.marked || p in s.runs[step.run][..step.done]
  {
    DealsOf(s.runs[step.run][..step.done], step.run, step.near);
  }

  lemma MarkedSettles(s: State, step: Step, i: nat)
    requires step.Complete? && Apply(s, step) != s && i < step.done
    ensures Settled(Apply(s, step), Deal(step.run, step.near(i)))
  {
    if |step.near(i)| >= 2 {
      var c :| 0 <= c < |step.calls| && step.calls[c].Applied? && step.clusters[c].seed <= i
               && step.near(i) <= step.clusters[c].members;
      assert (step.run, step.clusters[c]) in Apply(s, step).applied;
    }
  }

  lemma StaysSettled(s: State, s': State, deal: Deal)
    requires Settled(s, deal) && s.applied <= s'.applied
    ensures Settled(s', deal)
  {
    if |deal.near| >= 2 {
      var c :| (deal.run, c) in s.applied && deal.near <= c.members;
      assert (deal.run, c) in s'.applied;
    }
  }

  lemma CompleteSettles(s: State, step: Step, p: Position)
    requires Inv(s) && step.Complete? && Apply(s, step) != s && p in Apply(s, step).marked
    ensures Settled(Apply(s, step), Apply(s, step).marked[p])
  {
    var s', positions := Apply(s, step), s.runs[step.run][..step.done];
    DealsOf(positions, step.run, step.near);
    if p in positions {
      var i :| 0 <= i < |positions| && positions[i] == p
               && Deals(positions, step.run, step.near)[p] == Deal(step.run, step.near(i));
      hide Inv, Deals;
      MarkedSettles(s, step, i);
    } else {
      StaysSettled(s, s', s.marked[p]);
    }
  }

  lemma CompleteReaches(s: State, step: Step, p: Position)
    requires Inv(s) && step.Complete? && Apply(s, step) != s && p in Apply(s, step).marked
    ensures Reached(p, Apply(s, step).watermark)
  {
    hide Settled, Accounted;
    CompleteMarks(s, step);
    var recent, done := s.runs[step.run], step.done;
    assert RunOk(recent);
    if p in recent[..done] {
      var i :| 0 <= i < done && recent[..done][i] == p;
      assert i == done - 1 || Less(recent[i], recent[done - 1]);
    }
  }

  lemma StepInv(s: State, step: Step)
    requires Inv(s)
    ensures Inv(Apply(s, step))
  {
    var s' := Apply(s, step);
    if step.Complete? && s' != s {
      hide Settled;
      forall p | p in s'.marked
        ensures Reached(p, s'.watermark) && Settled(s', s'.marked[p])
      {
        CompleteSettles(s, step, p);
        CompleteReaches(s, step, p);
      }
    } else {
      forall p | p in s'.marked ensures Settled(s', s'.marked[p]) { assert Settled(s, s.marked[p]); }
    }
  }

  /** A live memory that nothing has gone past is not gone past by any step that leaves it alone. */
  lemma AheadStep(s: State, step: Step, p: Position)
    requires Inv(s) && Live(s, p) && Ahead(s, p) && !Rewrites(step, p.id)
    ensures Live(Apply(s, step), p) && Ahead(Apply(s, step), p)
  {
    var s' := Apply(s, step);
    if step.Complete? && s' != s {
      CompleteMarks(s, step);
      var recent, done := s.runs[step.run], step.done;
      if p in s.marked { return; }
      assert !Overtakes(recent, p) && RunOk(recent);
      if Reached(p, s'.watermark) && !Reached(p, s.watermark) {
        assert AtMost(p, recent[done - 1]);
        assert p in recent;
        var i :| 0 <= i < |recent| && recent[i] == p;
        assert i < done && recent[..done][i] == p;
      }
    }
  }

  predicate LeavesAlone(steps: seq<Step>, id: Id) {
    forall i | 0 <= i < |steps| :: !Rewrites(steps[i], id)
  }

  lemma {:induction false} AheadRun(s: State, steps: seq<Step>, p: Position)
    requires Inv(s) && Live(s, p) && Ahead(s, p) && LeavesAlone(steps, p.id)
    ensures Inv(Run(s, steps)) && Ahead(Run(s, steps), p)
    decreases |steps|
  {
    if steps != [] {
      StepInv(s, steps[0]);
      AheadStep(s, steps[0], p);
      forall i | 0 <= i < |steps[1..]| ensures !Rewrites(steps[1..][i], p.id) { assert !Rewrites(steps[i + 1], p.id); }
      AheadRun(Apply(s, steps[0]), steps[1..], p);
    }
  }

  lemma {:induction false} RunInv(s: State, steps: seq<Step>)
    requires Inv(s)
    ensures Inv(Run(s, steps))
    decreases |steps|
  {
    if steps != [] {
      StepInv(s, steps[0]);
      RunInv(Apply(s, steps[0]), steps[1..]);
    }
  }

  /** The memory can come to lie behind the watermark without ever having been marked. */
  ghost predicate CanBeSkipped(s: State, p: Position) {
    exists steps {:trigger LeavesAlone(steps, p.id)} ::
      LeavesAlone(steps, p.id) && Reached(p, Run(s, steps).watermark) && p !in Run(s, steps).marked
  }

  /** In every reachable state a live memory can be skipped if and only if, unmarked, it already lies behind the watermark
      or behind the end of a run under way that did not read it: it was committed late. */
  lemma SkippedExactly(steps: seq<Step>, p: Position)
    requires Live(Run(Initial, steps), p)
    ensures CanBeSkipped(Run(Initial, steps), p) <==> !Ahead(Run(Initial, steps), p)
  {
    RunInv(Initial, steps);
    var s := Run(Initial, steps);
    if Ahead(s, p) {
      forall more: seq<Step> | LeavesAlone(more, p.id)
        ensures !(Reached(p, Run(s, more).watermark) && p !in Run(s, more).marked)
      {
        AheadRun(s, more, p);
      }
    } else if Reached(p, s.watermark) {
      assert LeavesAlone([], p.id) && Run(s, []) == s;
    } else {
      var r :| r in s.runs && Overtakes(s.runs[r], p);
      OvertakenSkips(s, r, p);
    }
  }

  lemma OvertakenSkips(s: State, r: nat, p: Position)
    requires Inv(s) && r in s.runs && Overtakes(s.runs[r], p) && p !in s.marked
    ensures CanBeSkipped(s, p)
  {
    var recent := s.runs[r];
    var alone: Neighbourhood := _ => {};
    var step := Complete(r, alone, |recent|, [], [], |recent|);
    assert Accounted(alone, |recent|, [], [], |recent|);
    CompleteMarks(s, step);
    var i :| 0 <= i < |recent| && Less(p, recent[i]);
    assert RunOk(recent) && (i == |recent| - 1 || Less(recent[i], recent[|recent| - 1]));
    var s' := Apply(s, step);
    assert p !in s'.marked && Reached(p, s'.watermark);
    assert [step][1..] == [] && Run(s, [step]) == Run(s', []);
    assert LeavesAlone([step], p.id);
  }

  /** Once behind the watermark, unmarked and in no run's hands, a memory that does not change is never dreamt. */
  lemma {:induction false} SkippedForever(s: State, steps: seq<Step>, p: Position)
    requires Inv(s) && Reached(p, s.watermark) && p !in s.marked && LeavesAlone(steps, p.id)
    requires forall r :: r in s.runs ==> p !in s.runs[r]
    ensures p !in Run(s, steps).marked
    decreases |steps|
  {
    if steps != [] {
      StepInv(s, steps[0]);
      if steps[0].Complete? && Apply(s, steps[0]) != s { CompleteMarks(s, steps[0]); }
      forall i | 0 <= i < |steps[1..]| ensures !Rewrites(steps[1..][i], p.id) { assert !Rewrites(steps[i + 1], p.id); }
      SkippedForever(Apply(s, steps[0]), steps[1..], p);
    }
  }

  /** A run that is completed right after it began marks exactly the live memories that had changed since the watermark, up to
      the last one it counted as done; the watermark is then that one's, and the run is over. */
  lemma RunMarksExactly(s: State, recent: seq<Position>, limit: nat, near: Neighbourhood, considered: nat,
                        clusters: seq<Cluster>, calls: seq<Call>, done: nat)
    requires Inv(s) && IsFresh(s, recent, limit) && 0 < done <= considered <= |recent|
    requires Accounted(near, considered, clusters, calls, done)
    ensures var r := Apply(Apply(s, Begin(recent, limit)), Complete(s.nextRun, near, considered, clusters, calls, done));
            && r.watermark == Some(recent[done - 1]) && r.runs == s.runs && r.memories == s.memories
            && (forall p :: p in r.marked <==> p in s.marked || (Live(s, p) && Past(p, s.watermark) && AtMost(p, recent[done - 1])))
            && (forall c, k :: (k, c) in r.applied <==>
                  (k, c) in s.applied
                  || (k == s.nextRun && exists i :: 0 <= i < |calls| && calls[i].Applied? && clusters[i] == c))
  {
    var b := Apply(s, Begin(recent, limit));
    var step := Complete(s.nextRun, near, considered, clusters, calls, done);
    var r := Apply(b, step);
    assert b == s.(runs := s.runs[s.nextRun := recent], nextRun := s.nextRun + 1) && s.nextRun !in s.runs;
    FreshPast(s, recent, limit, done - 1);
    hide Inv, IsFresh, Accounted;
    CompletedNow(b, step);
    hide Apply;
    assert s.runs[s.nextRun := recent] - {s.nextRun} == s.runs;
    forall p
      ensures p in recent[..done] <==> Live(s, p) && Past(p, s.watermark) && AtMost(p, recent[done - 1])
    {
      ReadUpTo(s, recent, limit, done, p);
    }
  }

  /** What completing a run records, when no other has recorded anything later. */
  lemma CompletedNow(s: State, step: Step)
    requires step.Complete? && step.run in s.runs && 0 < step.done <= step.considered <= |s.runs[step.run]|
    requires Accounted(step.near, step.considered, step.clusters, step.calls, step.done)
    requires Past(s.runs[step.run][step.done - 1], s.watermark)
    ensures var r := Apply(s, step);
            && r.watermark == Some(s.runs[step.run][step.done - 1]) && r.runs == s.runs - {step.run} && r.memories == s.memories
            && (forall p :: p in r.marked <==> p in s.marked || p in s.runs[step.run][..step.done])
            && (forall c, k :: (k, c) in r.applied <==>
                  (k, c) in s.applied
                  || (k == step.run && exists i :: 0 <= i < |step.calls| && step.calls[i].Applied? && step.clusters[i] == c))
  {
    DealsOf(s.runs[step.run][..step.done], step.run, step.near);
  }

  lemma ReadUpTo(s: State, recent: seq<Position>, limit: nat, done: nat, p: Position)
    requires IsFresh(s, recent, limit) && 0 < done <= |recent|
    ensures p in recent[..done] <==> Live(s, p) && Past(p, s.watermark) && AtMost(p, recent[done - 1])
  {
    if p in recent {
      var i :| 0 <= i < |recent| && recent[i] == p;
      assert i < done ==> recent[..done][i] == p;
      assert i != done - 1 ==> Less(recent[i], recent[done - 1]) || Less(recent[done - 1], recent[i]);
      assert forall j :: 0 <= j < done <= i ==> Less(recent[j], recent[i]);
    }
  }

  /** So a run that read fewer than its limit, and was done with all of them, leaves nothing behind: every live memory lies
      at or behind the watermark, and every one that had changed is marked. */
  lemma CatchesUp(s: State, recent: seq<Position>, limit: nat, near: Neighbourhood, clusters: seq<Cluster>, calls: seq<Call>)
    requires Inv(s) && IsFresh(s, recent, limit) && 0 < |recent| < limit
    requires Accounted(near, |recent|, clusters, calls, |recent|)
    ensures var r := Apply(Apply(s, Begin(recent, limit)), Complete(s.nextRun, near, |recent|, clusters, calls, |recent|));
            forall p :: Live(r, p) ==> Reached(p, r.watermark) && (Past(p, s.watermark) ==> p in r.marked)
  {
    var r := Apply(Apply(s, Begin(recent, limit)), Complete(s.nextRun, near, |recent|, clusters, calls, |recent|));
    RunMarksExactly(s, recent, limit, near, |recent|, clusters, calls, |recent|);
    hide Accounted, Apply, Inv;
    forall p | Live(r, p)
      ensures Reached(p, r.watermark) && (Past(p, s.watermark) ==> p in r.marked)
    {
      if Past(p, s.watermark) {
        assert p in recent && recent[..|recent|] == recent;
        ReadUpTo(s, recent, limit, |recent|, p);
      } else {
        assert Past(recent[|recent| - 1], s.watermark);
      }
    }
  }

  /** A memory that was retired is live at no position, and one that was written at exactly the new one; a run that was given
      up is over, and marked nothing. */
  lemma ChangesOf(s: State, id: Id, at: int, run: nat, p: Position)
    ensures Live(Apply(s, Write(id, at)), p) <==> if p.id == id then p.at == at else Live(s, p)
    ensures Live(Apply(s, Retire(id)), p) <==> p.id != id && Live(s, p)
    ensures Apply(s, Abandon(run)) == s.(runs := s.runs - {run})
  {
  }

  /** Past the watermark and past everything a run under way has read. */
  predicate OnTime(s: State, p: Position) {
    Past(p, s.watermark) && forall r | r in s.runs :: forall i | 0 <= i < |s.runs[r]| :: !Less(p, s.runs[r][i])
  }

  /** A memory written on time starts out ahead. */
  lemma WrittenAhead(s: State, id: Id, at: int)
    requires OnTime(s, Position(at, id))
    ensures Live(Apply(s, Write(id, at)), Position(at, id)) && Ahead(Apply(s, Write(id, at)), Position(at, id))
  {
  }

  /** Across any number of dreams: a memory written on time, in whatever state, that does not change is not passed by a
      later watermark unless it was marked, and it had no neighbour or was inside a cluster that was called and applied. */
  lemma WatermarkSkipsNothing(before: seq<Step>, id: Id, at: int, after: seq<Step>)
    requires OnTime(Run(Initial, before), Position(at, id)) && LeavesAlone(after, id)
    ensures var s := Run(Apply(Run(Initial, before), Write(id, at)), after);
            var p := Position(at, id);
            Reached(p, s.watermark) ==> p in s.marked && Settled(s, s.marked[p])
  {
    RunInv(Initial, before);
    var written := Apply(Run(Initial, before), Write(id, at));
    StepInv(Run(Initial, before), Write(id, at));
    WrittenAhead(Run(Initial, before), id, at);
    AheadRun(written, after, Position(at, id));
  }

  lemma RunTwo(s: State, a: Step, b: Step)
    ensures Run(s, [a, b]) == Apply(Apply(s, a), b)
  {
    assert [a, b][1..] == [b] && [b][1..] == [];
    assert Run(Apply(s, a), [b]) == Run(Apply(Apply(s, a), b), []);
  }

  /** A reachable state in which a live memory can be skipped: a run reads a memory changed at 5, and one changed at 3 is
      committed while it is under way. */
  lemma LateCommitCanBeSkipped()
    ensures var s := Run(Run(Initial, [Write(0, 5), Begin([Position(5, 0)], 1)]), [Write(1, 3)]);
            Live(s, Position(3, 1)) && CanBeSkipped(s, Position(3, 1))
  {
    var recent, late := [Position(5, 0)], Position(3, 1);
    var w := Apply(Initial, Write(0, 5));
    assert IsFresh(w, recent, 1);
    RunTwo(Initial, Write(0, 5), Begin(recent, 1));
    var b := Apply(w, Begin(recent, 1));
    var s := Apply(b, Write(1, 3));
    assert [Write(1, 3)][1..] == [] && Run(b, [Write(1, 3)]) == Run(s, []);
    StepInv(Initial, Write(0, 5));
    StepInv(w, Begin(recent, 1));
    StepInv(b, Write(1, 3));
    assert 0 in s.runs && s.runs[0] == recent && Less(late, recent[0]) && late !in recent;
    assert Overtakes(s.runs[0], late);
    OvertakenSkips(s, 0, late);
  }

  lemma WatermarkStep(s: State, step: Step)
    requires Inv(s)
    ensures NoEarlier(s.watermark, Apply(s, step).watermark)
  {
  }

  /** A later watermark, or the same. */
  predicate NoEarlier(before: Option<Position>, after: Option<Position>) {
    before.Some? ==> after.Some? && AtMost(before.value, after.value)
  }

  lemma {:induction false} WatermarkRun(s: State, steps: seq<Step>)
    requires Inv(s)
    ensures NoEarlier(s.watermark, Run(s, steps).watermark)
    decreases |steps|
  {
    if steps != [] {
      WatermarkStep(s, steps[0]);
      StepInv(s, steps[0]);
      hide Apply, Inv;
      WatermarkRun(Apply(s, steps[0]), steps[1..]);
    }
  }

  /** What a run under way has read does not change. */
  lemma {:induction false} RunStays(s: State, steps: seq<Step>, run: nat)
    requires Inv(s) && run < s.nextRun && run in Run(s, steps).runs
    ensures run in s.runs && Run(s, steps).runs[run] == s.runs[run]
    decreases |steps|
  {
    if steps != [] {
      StepInv(s, steps[0]);
      RunStays(Apply(s, steps[0]), steps[1..], run);
    }
  }

  lemma Recorded(s: State, step: Step)
    requires step.Complete? && Apply(s, step) != s
    ensures step.run in s.runs && 0 < step.done <= |s.runs[step.run]|
    ensures Reached(s.runs[step.run][step.done - 1], Apply(s, step).watermark)
  {
    CompleteMarks(s, step);
  }

  /** A watermark recorded by a completed run is strictly past the one the run began from, whatever other runs recorded
      meanwhile; and no step of anyone moves a watermark back. */
  lemma WatermarkRises(before: seq<Step>, recent: seq<Position>, limit: nat, between: seq<Step>, step: Step, after: seq<Step>)
    requires IsFresh(Run(Initial, before), recent, limit)
    requires var s := Run(Initial, before);
             var t := Run(Apply(s, Begin(recent, limit)), between);
             step.Complete? && step.run == s.nextRun && Apply(t, step) != t
    ensures var s := Run(Initial, before);
            var t := Run(Apply(s, Begin(recent, limit)), between);
            var end := Run(Apply(t, step), after);
            && 0 < step.done <= |recent| && Past(recent[step.done - 1], s.watermark)
            && Reached(recent[step.done - 1], end.watermark)
            && NoEarlier(s.watermark, t.watermark) && NoEarlier(t.watermark, end.watermark)
  {
    var s := Run(Initial, before);
    var b := Apply(s, Begin(recent, limit));
    var t := Run(b, between);
    RunInv(Initial, before);
    StepInv(s, Begin(recent, limit));
    RunInv(b, between);
    StepInv(t, step);
    WatermarkRun(b, between);
    RunStays(b, between, step.run);
    Recorded(t, step);
    WatermarkStep(t, step);
    WatermarkRun(Apply(t, step), after);
    hide Apply, Run, Inv, IsFresh, Accounted;
    assert Past(recent[step.done - 1], s.watermark) by { FreshPast(s, recent, limit, step.done - 1); }
  }

  lemma FreshPast(s: State, recent: seq<Position>, limit: nat, i: nat)
    requires IsFresh(s, recent, limit) && i < |recent|
    ensures Past(recent[i], s.watermark)
  {
  }
}
