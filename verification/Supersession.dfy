/**
 How memories replace each other (store.py, consolidate.py, dream.py, extract.py): status changes, supersession links,
 and the citations a survivor takes over.
 */
module Supersession {
  import opened Options

  datatype Status = Active | Archived | Expired | Superseded

  /** What the guard of a dream compares: when a claim was said, its subject and context, and whether someone stated it. */
  datatype Claim = Claim(said: int, about: nat, stated: bool)

  /** A memory: its status, the memory that replaced it, the messages it cites, its claim, and whether one of its
      revisions is superseded. */
  datatype Memory = Memory(status: Status, replacedBy: Option<nat>, cites: set<nat>, claim: Claim, wasSuperseded: bool)

  datatype State = State(memories: map<nat, Memory>, next: nat)

  datatype Step =
    | Add(cites: set<nat>, claim: Claim)
    | Edit(id: nat, claim: Claim)           // update_memory: whatever the status
    | Retire(id: nat, expired: bool)        // set_memory_status to archived or expired
    | Restore(id: nat)                      // set_memory_status to active
    | Confirm(id: nat)                      // set_review_status: active, link untouched
    | Decline(id: nat)                      // set_review_status: archived, link untouched
    | Merge(survivor: nat, member: nat)     // consolidation: both locked live, citations inherited
    | Update(replaced: nat, replacement: nat)   // dream: both locked live, the replacement a later claim about the same
    | Extracted(existing: nat, cites: set<nat>, claim: Claim, backwards: bool)   // a new memory; its target was read
                                                                                  // without a lock

  const Initial := State(map[], 0)

  predicate Live(s: State, id: nat) {
    id in s.memories && s.memories[id].status.Active?
  }

  function SetStatus(s: State, id: nat, status: Status, replacement: Option<nat>): State
    requires id in s.memories
  {
    s.(memories := s.memories[id := WithStatus(s.memories[id], status, replacement)])
  }

  function WithStatus(m: Memory, status: Status, replacement: Option<nat>): Memory {
    m.(status := status, replacedBy := replacement, wasSuperseded := m.wasSuperseded || status.Superseded?)
  }

  function AddMemory(s: State, cites: set<nat>, claim: Claim): State {
    s.(memories := s.memories[s.next := Memory(Active, None, cites, claim, false)], next := s.next + 1)
  }

  /** A replacement comes after what it replaces, is about the same subject in the same context, and was stated. */
  predicate Forward(replaced: Claim, replacement: Claim) {
    replaced.said <= replacement.said && replaced.about == replacement.about && replacement.stated
  }

  function Inherit(s: State, survivor: nat, member: nat): State
    requires survivor in s.memories && member in s.memories
  {
    s.(memories := s.memories[survivor := s.memories[survivor].(cites := s.memories[survivor].cites + s.memories[member].cites)])
  }

  function Apply(s: State, step: Step): State {
    match step
    case Add(cites, claim) => AddMemory(s, cites, claim)
    case Edit(id, claim) => if id !in s.memories then s else s.(memories := s.memories[id := s.memories[id].(claim := claim)])
    case Retire(id, expired) => if id !in s.memories then s else SetStatus(s, id, if expired then Expired else Archived, None)
    case Restore(id) => if id !in s.memories then s else SetStatus(s, id, Active, None)
    case Confirm(id) => if id !in s.memories then s else SetStatus(s, id, Active, s.memories[id].replacedBy)
    case Decline(id) => if id !in s.memories then s else SetStatus(s, id, Archived, s.memories[id].replacedBy)
    case Merge(survivor, member) =>
      if survivor == member || !Live(s, survivor) || !Live(s, member) then s
      else SetStatus(Inherit(s, survivor, member), member, Superseded, Some(survivor))
    case Update(replaced, replacement) =>
      if replaced == replacement || !Live(s, replaced) || !Live(s, replacement) then s
      else if !Forward(s.memories[replaced].claim, s.memories[replacement].claim) then s
      else SetStatus(s, replaced, Superseded, Some(replacement))
    case Extracted(existing, cites, claim, backwards) =>
      if existing !in s.memories then s
      else
        var added := AddMemory(s, cites, claim);
        if existing !in added.memories || existing == s.next then s
        else if backwards then SetStatus(added, s.next, Superseded, Some(existing))
        else SetStatus(added, existing, Superseded, Some(s.next))
  }

  function Run(s: State, steps: seq<Step>): State
    decreases |steps|
  {
    if steps == [] then s else Run(Apply(s, steps[0]), steps[1..])
  }

  // ---- chains of replacement ----

  /** The memory `n` links on. */
  function Follow(s: State, id: nat, n: nat): Option<nat>
    decreases n
  {
    if n == 0 then Some(id)
    else if id in s.memories && s.memories[id].replacedBy.Some? then Follow(s, s.memories[id].replacedBy.value, n - 1)
    else None
  }

  ghost predicate Cyclic(s: State) {
    exists id: nat, n: nat :: n > 0 && Follow(s, id, n) == Some(id)
  }

  /** Levels that rise along every link. */
  ghost predicate Ranked(s: State, rank: map<nat, int>) {
    && rank.Keys == s.memories.Keys
    && forall id :: id in s.memories && s.memories[id].replacedBy.Some? ==>
         s.memories[id].replacedBy.value in s.memories && rank[id] < rank[s.memories[id].replacedBy.value]
  }

  ghost predicate Shaped(s: State) {
    && (forall id :: id in s.memories ==> id < s.next)
    && (forall id :: id in s.memories && s.memories[id].status.Superseded? ==> s.memories[id].replacedBy.Some?)
  }

  /** An active memory replaces others, it is not itself replaced. */
  predicate ActiveUnlinked(s: State) {
    forall id | id in s.memories :: s.memories[id].status.Active? ==> s.memories[id].replacedBy.None?
  }

  ghost predicate Inv(s: State) {
    Shaped(s) && ActiveUnlinked(s) && exists rank :: Ranked(s, rank)
  }

  lemma {:induction false} FollowClimbs(s: State, rank: map<nat, int>, id: nat, n: nat)
    requires Ranked(s, rank) && id in s.memories && n > 0 && Follow(s, id, n).Some?
    ensures Follow(s, id, n).value in s.memories && rank[Follow(s, id, n).value] > rank[id]
    decreases n
  {
    if n > 1 {
      FollowClimbs(s, rank, s.memories[id].replacedBy.value, n - 1);
    }
  }

  lemma RankedAcyclic(s: State, rank: map<nat, int>)
    requires Ranked(s, rank)
    ensures !Cyclic(s)
  {
    if id: nat, n: nat :| n > 0 && Follow(s, id, n) == Some(id) {
      assert id in s.memories;
      FollowClimbs(s, rank, id, n);
      assert false;
    }
  }

  lemma {:induction false} Above(rank: map<nat, int>, limit: nat) returns (top: int)
    ensures forall id: nat :: id in rank && id < limit ==> rank[id] < top
  {
    if limit == 0 {
      top := 0;
    } else {
      top := Above(rank, limit - 1);
      if limit - 1 in rank && rank[limit - 1] >= top {
        top := rank[limit - 1] + 1;
      }
    }
  }

  /** A step that adds no link keeps the levels. */
  lemma FewerLinks(s: State, s': State, rank: map<nat, int>)
    requires Ranked(s, rank) && s'.memories.Keys == s.memories.Keys
    requires forall id :: id in s.memories ==>
               s'.memories[id].replacedBy == s.memories[id].replacedBy || s'.memories[id].replacedBy.None?
    ensures Ranked(s', rank)
  {
  }

  /** A new link to a memory that is not itself replaced: that one rises above all. */
  lemma OneLink(s: State, s': State, rank: map<nat, int>, replaced: nat, replacement: nat, top: int)
    requires Ranked(s, rank) && s'.memories.Keys == s.memories.Keys && replaced != replacement
    requires replaced in s.memories && replacement in s.memories && s.memories[replacement].replacedBy.None?
    requires forall id :: id in s.memories && id != replaced ==> s'.memories[id].replacedBy == s.memories[id].replacedBy
    requires s'.memories[replaced].replacedBy == Some(replacement)
    requires forall id :: id in rank ==> rank[id] < top
    ensures Ranked(s', rank[replacement := top])
  {
  }

  /** What the extractor adds stands above everything, or just below the memory it is filed behind. */
  lemma ExtractedRanked(s: State, step: Step, rank: map<nat, int>, top: int)
    requires Shaped(s) && ActiveUnlinked(s) && Ranked(s, rank) && step.Extracted? && step.existing in s.memories
    requires forall id :: id in rank ==> rank[id] < top
    ensures Ranked(Apply(s, step), rank[s.next := if step.backwards then rank[step.existing] - 1 else top])
  {
  }

  /** The new levels after each step: a memory that becomes a replacement rises above all. */
  lemma StepRanked(s: State, step: Step, rank: map<nat, int>) returns (rank': map<nat, int>)
    requires Shaped(s) && ActiveUnlinked(s) && Ranked(s, rank)
    ensures Ranked(Apply(s, step), rank')
  {
    var top := Above(rank, s.next);
    assert forall id :: id in rank ==> rank[id] < top;
    var s' := Apply(s, step);
    rank' := rank;
    if s' != s {
      match step
      case Merge(survivor, member) =>
        rank' := rank[survivor := top];
        OneLink(s, s', rank, member, survivor, top);
      case Update(replaced, replacement) =>
        rank' := rank[replacement := top];
        OneLink(s, s', rank, replaced, replacement, top);
      case Add(_, _) =>
        rank' := rank[s.next := top];
      case Extracted(existing, _, _, backwards) =>
        rank' := rank[s.next := if backwards then rank[existing] - 1 else top];
        ExtractedRanked(s, step, rank, top);
      case _ =>
        FewerLinks(s, s', rank);
    }
  }

  /** Everything but confirming a memory that was replaced. */
  predicate Unlinking(s: State, step: Step) {
    step.Confirm? && step.id in s.memories ==> s.memories[step.id].replacedBy.None?
  }

  predicate AllUnlinking(s: State, steps: seq<Step>)
    decreases |steps|
  {
    steps != [] ==> Unlinking(s, steps[0]) && AllUnlinking(Apply(s, steps[0]), steps[1..])
  }

  lemma StepKeeps(s: State, step: Step)
    requires Inv(s) && Unlinking(s, step)
    ensures Inv(Apply(s, step))
  {
    var rank :| Ranked(s, rank);
    var rank' := StepRanked(s, step, rank);
    hide Ranked;
  }

  lemma {:induction false} RunKeeps(s: State, steps: seq<Step>)
    requires Inv(s) && AllUnlinking(s, steps)
    ensures Inv(Run(s, steps))
    decreases |steps|
  {
    if steps != [] {
      StepKeeps(s, steps[0]);
      RunKeeps(Apply(s, steps[0]), steps[1..]);
    }
  }

  /** Where the chain of replacements from a memory ends. */
  lemma {:induction false} ChainEnds(s: State, rank: map<nat, int>, id: nat, top: int) returns (n: nat, end: nat)
    requires Shaped(s) && Ranked(s, rank) && id in s.memories && (forall j :: j in rank ==> rank[j] < top)
    ensures Follow(s, id, n) == Some(end) && end in s.memories && s.memories[end].replacedBy.None?
    decreases top - rank[id]
  {
    if s.memories[id].replacedBy.None? {
      n, end := 0, id;
    } else {
      var m;
      m, end := ChainEnds(s, rank, s.memories[id].replacedBy.value, top);
      n := m + 1;
    }
  }

  // ---- main results ----

  /** As long as no replaced memory is confirmed, supersession is acyclic in every reachable state, and every chain of
      replacements ends at a memory that was not superseded. */
  lemma SupersessionAcyclic(steps: seq<Step>, id: nat) returns (n: nat, end: nat)
    requires AllUnlinking(Initial, steps) && id in Run(Initial, steps).memories
    ensures !Cyclic(Run(Initial, steps))
    ensures var s := Run(Initial, steps);
            Follow(s, id, n) == Some(end) && end in s.memories && !s.memories[end].status.Superseded?
  {
    var none: map<nat, int> := map[];
    assert Ranked(Initial, none);
    RunKeeps(Initial, steps);
    var s := Run(Initial, steps);
    var rank :| Ranked(s, rank);
    RankedAcyclic(s, rank);
    var top := Above(rank, s.next);
    n, end := ChainEnds(s, rank, id, top);
  }

  // ---- a memory is superseded at most once ----

  /** A supersession: which memory, by which, and whether that one was active when the link was made. */
  datatype Link = Link(replaced: nat, replacement: nat, byActive: bool)

  /** The supersession a step performs in a state, if any. */
  function Made(s: State, step: Step): seq<Link> {
    var s' := Apply(s, step);
    if s' == s then []
    else match step
      case Merge(survivor, member) => [Link(member, survivor, Live(s', survivor))]
      case Update(replaced, replacement) => [Link(replaced, replacement, Live(s', replacement))]
      case Extracted(existing, _, _, backwards) =>
        if backwards then [Link(s.next, existing, Live(s', existing))] else [Link(existing, s.next, Live(s', s.next))]
      case _ => []
  }

  function History(s: State, steps: seq<Step>): seq<Link>
    decreases |steps|
  {
    if steps == [] then [] else Made(s, steps[0]) + History(Apply(s, steps[0]), steps[1..])
  }

  function Times(links: seq<Link>, id: nat): nat {
    if links == [] then 0 else (if links[0].replaced == id then 1 else 0) + Times(links[1..], id)
  }

  ghost predicate EachOnce(links: seq<Link>) {
    forall id: nat :: Times(links, id) <= 1
  }

  predicate WasSuperseded(s: State, id: nat) {
    id in s.memories && s.memories[id].wasSuperseded
  }

  /** Nobody brings a memory back, by restoring it or by confirming it. */
  predicate Calm(steps: seq<Step>) {
    forall i | 0 <= i < |steps| :: !steps[i].Restore? && !steps[i].Confirm?
  }

  /** A replacement written by the extractor finds a memory none of whose revisions is superseded. */
  predicate FindsFirst(s: State, step: Step) {
    step.Extracted? && !step.backwards ==> !WasSuperseded(s, step.existing)
  }

  predicate AllFindFirst(s: State, steps: seq<Step>)
    decreases |steps|
  {
    steps != [] ==> FindsFirst(s, steps[0]) && AllFindFirst(Apply(s, steps[0]), steps[1..])
  }

  /** A newer truth the extractor files a claim behind is still active. */
  predicate BehindActive(s: State, step: Step) {
    step.Extracted? && step.backwards && step.existing in s.memories ==> Live(s, step.existing)
  }

  predicate AllBehindActive(s: State, steps: seq<Step>)
    decreases |steps|
  {
    steps != [] ==> BehindActive(s, steps[0]) && AllBehindActive(Apply(s, steps[0]), steps[1..])
  }

  /** The extractor's target, read without a lock, is still active when it writes. */
  predicate AllTargetsActive(s: State, steps: seq<Step>)
    decreases |steps|
  {
    steps != [] ==>
      && (steps[0].Extracted? && steps[0].existing in s.memories ==> Live(s, steps[0].existing))
      && AllTargetsActive(Apply(s, steps[0]), steps[1..])
  }

  predicate Numbered(s: State) {
    forall id | id in s.memories :: id < s.next
  }

  /** No active memory was superseded before: what calm runs keep. */
  predicate ActiveIsFirst(s: State) {
    && Numbered(s)
    && (forall id | id in s.memories :: s.memories[id].status.Active? ==> !s.memories[id].wasSuperseded)
  }

  ghost predicate AtMostOnce(s: State, links: seq<Link>) {
    forall id: nat :: Times(links, id) + (if WasSuperseded(s, id) then 1 else 0) <= 1
  }

  ghost predicate AllByActive(links: seq<Link>) {
    forall i :: 0 <= i < |links| ==> links[i].byActive
  }

  /** A step that finds its memory not superseded before moves one count from the links to the state. */
  lemma StepMovesCount(s: State, step: Step, rest: seq<Link>)
    requires ActiveIsFirst(s) && !step.Restore? && !step.Confirm?
    ensures ActiveIsFirst(Apply(s, step))
    ensures FindsFirst(s, step) ==> (AtMostOnce(s, Made(s, step) + rest) <==> AtMostOnce(Apply(s, step), rest))
    ensures !FindsFirst(s, step) ==> !AtMostOnce(s, Made(s, step) + rest)
  {
    var made := Made(s, step);
    if made == [] {
      assert made + rest == rest;
      assert forall id: nat :: WasSuperseded(s, id) == WasSuperseded(Apply(s, step), id);
    } else {
      var links := made + rest;
      assert links[0] == made[0] && links[1..] == rest;
      assert forall id: nat :: Times(links, id) == (if made[0].replaced == id then 1 else 0) + Times(rest, id);
      if FindsFirst(s, step) {
        assert forall id: nat ::
            (if made[0].replaced == id then 1 else 0) + (if WasSuperseded(s, id) then 1 else 0)
            == (if WasSuperseded(Apply(s, step), id) then 1 else 0);
      } else {
        assert Times(links, step.existing) >= 1;
      }
    }
  }

  lemma {:induction false} CountsOnce(s: State, steps: seq<Step>)
    requires ActiveIsFirst(s) && Calm(steps)
    ensures AtMostOnce(s, History(s, steps)) <==> AllFindFirst(s, steps)
    decreases |steps|
  {
    if steps == [] {
      assert forall id: nat :: Times([], id) == 0;
    } else {
      assert Calm(steps[1..]) by {
        assert forall i | 0 <= i < |steps[1..]| :: steps[1..][i] == steps[i + 1];
      }
      StepMovesCount(s, steps[0], History(Apply(s, steps[0]), steps[1..]));
      CountsOnce(Apply(s, steps[0]), steps[1..]);
    }
  }

  lemma MadeByActive(s: State, step: Step)
    requires Numbered(s)
    ensures Numbered(Apply(s, step))
    ensures AllByActive(Made(s, step)) <==> BehindActive(s, step)
  {
    if step.Extracted? && step.backwards && step.existing in s.memories {
      assert Made(s, step) != [] && Made(s, step)[0].byActive == Live(s, step.existing);
    }
  }

  lemma {:induction false} CountsActive(s: State, steps: seq<Step>)
    requires Numbered(s)
    ensures AllByActive(History(s, steps)) <==> AllBehindActive(s, steps)
    decreases |steps|
  {
    if steps != [] {
      var made, rest := Made(s, steps[0]), History(Apply(s, steps[0]), steps[1..]);
      MadeByActive(s, steps[0]);
      hide Made, Apply, BehindActive;
      assert AllByActive(made + rest) <==> AllByActive(made) && AllByActive(rest) by {
        assert forall i | 0 <= i < |made| :: (made + rest)[i] == made[i];
        assert forall i | 0 <= i < |rest| :: (made + rest)[|made| + i] == rest[i];
      }
      CountsActive(Apply(s, steps[0]), steps[1..]);
    }
  }

  lemma OnceFromNothing(s: State, links: seq<Link>)
    requires s.memories == map[]
    ensures AtMostOnce(s, links) <==> EachOnce(links)
  {
    assert forall id: nat :: !WasSuperseded(s, id);
  }

  /** In every run in which nobody brings a memory back, each memory is superseded at most once if and only if every
      replacement the extractor writes finds a memory that was not superseded before; and each is superseded by a memory
      active at that moment if and only if every claim the extractor files behind another finds that one active. */
  lemma SupersededOnce(steps: seq<Step>)
    requires Calm(steps)
    ensures EachOnce(History(Initial, steps)) <==> AllFindFirst(Initial, steps)
    ensures AllByActive(History(Initial, steps)) <==> AllBehindActive(Initial, steps)
  {
    CountsOnce(Initial, steps);
    CountsActive(Initial, steps);
    OnceFromNothing(Initial, History(Initial, steps));
  }

  lemma {:induction false} TargetsActive(s: State, steps: seq<Step>)
    requires ActiveIsFirst(s) && Calm(steps) && AllTargetsActive(s, steps)
    ensures AllFindFirst(s, steps) && AllBehindActive(s, steps)
    decreases |steps|
  {
    if steps != [] {
      assert Calm(steps[1..]) by {
        assert forall i | 0 <= i < |steps[1..]| :: steps[1..][i] == steps[i + 1];
      }
      StepMovesCount(s, steps[0], []);
      TargetsActive(Apply(s, steps[0]), steps[1..]);
    }
  }

  /** When what the extractor read is still active as it writes, both hold. */
  lemma SupersededOnceByActive(steps: seq<Step>)
    requires Calm(steps) && AllTargetsActive(Initial, steps)
    ensures EachOnce(History(Initial, steps)) && AllByActive(History(Initial, steps))
  {
    TargetsActive(Initial, steps);
    SupersededOnce(steps);
  }

  /** A merge that lands between the extractor's read and its write: one memory is superseded twice, and its link to the
      merged memory is lost. */
  lemma SupersededTwice(claim: Claim)
    ensures var steps := [Add({}, claim), Add({}, claim), Merge(0, 1), Extracted(1, {}, claim, false)];
            && Calm(steps) && History(Initial, steps) == [Link(1, 0, true), Link(1, 2, true)]
            && Times(History(Initial, steps), 1) == 2
            && Follow(Run(Initial, steps[..3]), 1, 1) == Some(0) && Follow(Run(Initial, steps), 1, 1) == Some(2)
  {
    var steps := [Add({}, claim), Add({}, claim), Merge(0, 1), Extracted(1, {}, claim, false)];
    var s1 := Apply(Initial, steps[0]);
    var s2 := Apply(s1, steps[1]);
    var s3 := Apply(s2, steps[2]);
    var s4 := Apply(s3, steps[3]);
    RunFour(Initial, steps[0], steps[1], steps[2], steps[3]);
    assert Made(s2, steps[2]) == [Link(1, 0, true)] && Made(s3, steps[3]) == [Link(1, 2, true)];
    assert [Link(1, 0, true), Link(1, 2, true)][1..] == [Link(1, 2, true)];
    assert [Link(1, 2, true)][1..] == [];
  }

  lemma RunFour(s: State, a: Step, b: Step, c: Step, d: Step)
    ensures var s3 := Apply(Apply(Apply(s, a), b), c);
            && Run(s, [a, b, c, d][..3]) == s3 && Run(s, [a, b, c, d]) == Apply(s3, d)
            && History(s, [a, b, c, d])
               == Made(s, a) + (Made(Apply(s, a), b) + (Made(Apply(Apply(s, a), b), c) + Made(s3, d)))
  {
    hide Apply, Made;
    assert [a, b, c, d][..3] == [a, b, c];
    assert [a, b, c, d][1..] == [b, c, d] && [b, c, d][1..] == [c, d] && [c, d][1..] == [d] && [d][1..] == [];
    assert [a, b, c][1..] == [b, c] && [b, c][1..] == [c] && [c][1..] == [];
    var s1 := Apply(s, a);
    var s2 := Apply(s1, b);
    var s3 := Apply(s2, c);
    assert Run(s2, [c]) == Run(s3, []);
    assert Run(s2, [c, d]) == Run(s3, [d]) == Run(Apply(s3, d), []);
    assert History(s3, [d]) == Made(s3, d) + [];
    assert History(s2, [c, d]) == Made(s2, c) + Made(s3, d);
  }

  // ---- confirming a replaced memory ----

  lemma {:induction false} FollowSame(s: State, s': State, id: nat, n: nat, avoid: nat)
    requires forall j :: j in s.memories && j != avoid ==> j in s'.memories && s'.memories[j].replacedBy == s.memories[j].replacedBy
    requires avoid in s.memories && s.memories[avoid].replacedBy.None? && Follow(s, id, n) == Some(avoid)
    ensures Follow(s', id, n) == Some(avoid)
    decreases n
  {
    if n > 0 {
      FollowSame(s, s', s.memories[id].replacedBy.value, n - 1, avoid);
    }
  }

  lemma {:induction false} FollowAppend(s: State, id: nat, n: nat)
    requires Follow(s, id, n).Some? && Follow(s, id, n).value in s.memories && s.memories[Follow(s, id, n).value].replacedBy.Some?
    ensures Follow(s, id, n + 1) == s.memories[Follow(s, id, n).value].replacedBy
    decreases n
  {
    if n > 0 {
      FollowAppend(s, s.memories[id].replacedBy.value, n - 1);
    }
  }

  /** Confirming a replaced memory puts it three ordinary steps from a cycle: bring back the end of its chain if need be,
      edit the confirmed claim to be no older than that end and about the same, and let a dream replace the end by it. */
  lemma ConfirmOpensACycle(s: State, id: nat) returns (steps: seq<Step>)
    requires Inv(s) && id in s.memories && s.memories[id].replacedBy.Some?
    ensures AllUnlinking(Apply(s, Confirm(id)), steps) && Cyclic(Run(Apply(s, Confirm(id)), steps))
  {
    var rank :| Ranked(s, rank);
    var top := Above(rank, s.next);
    var n, end := ChainEnds(s, rank, id, top);
    hide Ranked, ActiveUnlinked, Shaped, Cyclic, Run;
    var c := Apply(s, Confirm(id));
    var r := Apply(c, Restore(end));
    var claim := s.memories[end].claim.(stated := true);
    var e := Apply(r, Edit(id, claim));
    var u := Apply(e, Update(end, id));
    steps := [Restore(end), Edit(id, claim), Update(end, id)];
    RunThree(c, Restore(end), Edit(id, claim), Update(end, id));
    FollowSame(s, u, id, n, end);
    assert u.memories[end].replacedBy == Some(id);
    FollowAppend(u, id, n);
    ClosesCycle(u, id, n + 1);
  }

  lemma ClosesCycle(s: State, id: nat, n: nat)
    requires n > 0 && Follow(s, id, n) == Some(id)
    ensures Cyclic(s)
  {
    hide Follow;
  }

  lemma RunThree(s: State, a: Step, b: Step, c: Step)
    requires !a.Confirm? && !b.Confirm? && !c.Confirm?
    ensures Run(s, [a, b, c]) == Apply(Apply(Apply(s, a), b), c)
    ensures AllUnlinking(s, [a, b, c])
  {
    hide Apply;
    var s1 := Apply(s, a);
    var s2 := Apply(s1, b);
    var s3 := Apply(s2, c);
    assert [a, b, c][1..] == [b, c] && [b, c][1..] == [c] && [c][1..] == [];
    assert Run(s1, [b, c]) == Run(s2, [c]) == Run(s3, []);
    assert AllUnlinking(s3, []) && AllUnlinking(s2, [c]) && AllUnlinking(s1, [b, c]);
  }

  /** No continuation that leaves replaced memories unconfirmed can close a cycle. */
  ghost predicate StaysAcyclic(s: State) {
    forall steps: seq<Step> {:trigger AllUnlinking(s, steps)} :: AllUnlinking(s, steps) ==> !Cyclic(Run(s, steps))
  }

  /** Confirming is safe if and only if the memory carries no supersession link. */
  lemma ConfirmExactly(s: State, id: nat)
    requires Inv(s) && id in s.memories
    ensures StaysAcyclic(Apply(s, Confirm(id))) <==> s.memories[id].replacedBy.None?
  {
    if s.memories[id].replacedBy.Some? {
      var steps := ConfirmOpensACycle(s, id);
    } else {
      StepKeeps(s, Confirm(id));
      var c := Apply(s, Confirm(id));
      forall steps: seq<Step> | AllUnlinking(c, steps)
        ensures !Cyclic(Run(c, steps))
      {
        RunKeeps(c, steps);
        var rank :| Ranked(Run(c, steps), rank);
        RankedAcyclic(Run(c, steps), rank);
      }
    }
  }

  // ---- what each change leaves ----

  /** A dream's update links two live memories exactly if the replacement was said no earlier, about the same, and stated. */
  lemma UpdateLinks(s: State, replaced: nat, replacement: nat)
    ensures var links := && replaced != replacement && replaced in s.memories && replacement in s.memories
                         && s.memories[replaced].status.Active? && s.memories[replacement].status.Active?
                         && s.memories[replaced].claim.said <= s.memories[replacement].claim.said
                         && s.memories[replaced].claim.about == s.memories[replacement].claim.about
                         && s.memories[replacement].claim.stated;
            Apply(s, Update(replaced, replacement)) == if !links then s else s.(memories := s.memories[replaced :=
              s.memories[replaced].(status := Superseded, replacedBy := Some(replacement), wasSuperseded := true)])
  {
  }

  /** What the extractor writes is one new memory; the older claim of it and its target is superseded by the later. */
  lemma ExtractedLinks(s: State, existing: nat, cites: set<nat>, claim: Claim, backwards: bool)
    requires Shaped(s)
    ensures var r := Apply(s, Extracted(existing, cites, claim, backwards));
            if existing !in s.memories then r == s
            else
              && s.next !in s.memories && r.next == s.next + 1
              && r.memories == if backwards
                               then s.memories[s.next := Memory(Superseded, Some(existing), cites, claim, true)]
                               else s.memories[s.next := Memory(Active, None, cites, claim, false)][existing :=
                                      s.memories[existing].(status := Superseded, replacedBy := Some(s.next),
                                                            wasSuperseded := true)]
  {
  }

  /** Archiving, expiring and restoring drop a link, a review keeps it, and an edit changes the claim alone. */
  lemma StatusChanges(s: State, id: nat, claim: Claim)
    requires id in s.memories
    ensures Apply(s, Retire(id, true)).memories == s.memories[id := s.memories[id].(status := Expired, replacedBy := None)]
    ensures Apply(s, Retire(id, false)).memories == s.memories[id := s.memories[id].(status := Archived, replacedBy := None)]
    ensures Apply(s, Restore(id)).memories == s.memories[id := s.memories[id].(status := Active, replacedBy := None)]
    ensures Apply(s, Confirm(id)).memories == s.memories[id := s.memories[id].(status := Active)]
    ensures Apply(s, Decline(id)).memories == s.memories[id := s.memories[id].(status := Archived)]
    ensures Apply(s, Edit(id, claim)).memories == s.memories[id := s.memories[id].(claim := claim)]
  {
  }

  // ---- merging a group ----

  function Merges(survivor: nat, members: seq<nat>): seq<Step> {
    if members == [] then [] else Merges(survivor, members[..|members| - 1]) + [Merge(survivor, members[|members| - 1])]
  }

  lemma {:induction false} RunAppend(s: State, steps: seq<Step>, step: Step)
    ensures Run(s, steps + [step]) == Apply(Run(s, steps), step)
    decreases |steps|
  {
    if steps == [] {
      assert [] + [step] == [step] && [step][1..] == [];
      assert Run(s, [step]) == Run(Apply(s, step), []);
    } else {
      assert (steps + [step])[1..] == steps[1..] + [step];
      RunAppend(Apply(s, steps[0]), steps[1..], step);
    }
  }

  ghost predicate Distinct(ids: seq<nat>) {
    forall i, j :: 0 <= i < j < |ids| ==> ids[i] != ids[j]
  }

  ghost function AllCites(s: State, ids: seq<nat>): set<nat> {
    set id, c | id in ids && id in s.memories && c in s.memories[id].cites :: c
  }

  /** The survivor cites what it and the members cited; they are superseded by it and keep their own citations; nothing
      else changes. */
  ghost predicate Merged(s: State, s': State, survivor: nat, members: seq<nat>) {
    && survivor in s.memories && s'.next == s.next && s'.memories.Keys == s.memories.Keys
    && s'.memories[survivor] == s.memories[survivor].(cites := s.memories[survivor].cites + AllCites(s, members))
    && (forall id :: id in members && id in s.memories ==>
          s'.memories[id] == s.memories[id].(status := Superseded, replacedBy := Some(survivor), wasSuperseded := true))
    && (forall id :: id in s.memories && id != survivor && id !in members ==> s'.memories[id] == s.memories[id])
  }

  lemma MergedOne(s: State, m: State, survivor: nat, members: seq<nat>, member: nat)
    requires Merged(s, m, survivor, members) && Live(s, survivor) && Live(s, member)
    requires member != survivor && member !in members && survivor !in members
    ensures Merged(s, Apply(m, Merge(survivor, member)), survivor, members + [member])
  {
    assert Live(m, survivor) && Live(m, member);
    assert AllCites(s, members + [member]) == AllCites(s, members) + s.memories[member].cites;
  }

  /** A merge of a locked group is a run of the protocol, and the survivor's citations are the union of the group's. */
  lemma {:induction false} GroupMerged(s: State, survivor: nat, members: seq<nat>)
    requires Live(s, survivor) && (forall id :: id in members ==> Live(s, id)) && Distinct(members) && survivor !in members
    ensures Merged(s, Run(s, Merges(survivor, members)), survivor, members)
  {
    if members == [] {
      assert AllCites(s, members) == {};
    } else {
      var front, last := members[..|members| - 1], members[|members| - 1];
      assert members == front + [last] && last in members && forall id :: id in front ==> id in members;
      assert last !in front;
      GroupMerged(s, survivor, front);
      RunAppend(s, Merges(survivor, front), Merge(survivor, last));
      MergedOne(s, Run(s, Merges(survivor, front)), survivor, front, last);
    }
  }

  class MemoryStore {
    var memories: map<nat, Memory>
    var next: nat

    ghost function View(): State
      reads this
    {
      State(memories, next)
    }

    method SetMemoryStatus(id: nat, status: Status, replacement: Option<nat>)
      requires id in memories
      modifies this`memories
      ensures View() == SetStatus(old(View()), id, status, replacement)
    {
      memories := memories[id := WithStatus(memories[id], status, replacement)];
    }

    method InheritProvenance(survivor: nat, member: nat)
      requires survivor in memories && member in memories
      modifies this`memories
      ensures View() == Inherit(old(View()), survivor, member)
    {
      memories := memories[survivor := memories[survivor].(cites := memories[survivor].cites + memories[member].cites)];
    }

    /** _lock_group: the whole group is still live and as planned: the revision, the identity, unexpired. */
    method LockGroup(group: seq<nat>, asPlanned: nat -> bool) returns (locked: bool)
      ensures locked <==> forall id :: id in group ==> Live(View(), id) && asPlanned(id)
    {
      locked := true;
      for i := 0 to |group|
        invariant locked <==> forall j :: 0 <= j < i ==> Live(View(), group[j]) && asPlanned(group[j])
      {
        locked := locked && group[i] in memories && memories[group[i]].status.Active? && asPlanned(group[i]);
      }
    }

    /** The exact path of consolidation: the first of a group survives and inherits, or the group is skipped. */
    method MergeExact(group: seq<nat>, asPlanned: nat -> bool) returns (merged: bool)
      requires group != [] && Distinct(group)
      modifies this`memories
      ensures merged <==> forall id :: id in group ==> Live(old(View()), id) && asPlanned(id)
      ensures if merged then Merged(old(View()), View(), group[0], group[1..]) else View() == old(View())
      ensures View() == Run(old(View()), if merged then Merges(group[0], group[1..]) else [])
    {
      merged := LockGroup(group, asPlanned);
      if merged {
        assert forall id :: id in group[1..] ==> id in group;
        MergeMembers(group[0], group[1..]);
      }
    }

    method MergeMembers(survivor: nat, members: seq<nat>)
      requires Live(View(), survivor) && (forall id :: id in members ==> Live(View(), id)) && Distinct(members)
      requires survivor !in members
      modifies this`memories
      ensures Merged(old(View()), View(), survivor, members)
      ensures View() == Run(old(View()), Merges(survivor, members))
    {
      ghost var s := View();
      GroupMerged(s, survivor, []);
      assert members[..0] == [];
      for i := 0 to |members|
        invariant View() == Run(s, Merges(survivor, members[..i])) && Merged(s, View(), survivor, members[..i])
      {
        assert members[..i + 1] == members[..i] + [members[i]] && members[i] !in members[..i];
        RunAppend(s, Merges(survivor, members[..i]), Merge(survivor, members[i]));
        MergedOne(s, View(), survivor, members[..i], members[i]);
        hide Merged, Run, Merges;
        MergeMember(survivor, members[i]);
      }
      assert members[..|members|] == members;
    }

    method MergeMember(survivor: nat, member: nat)
      requires survivor != member && Live(View(), survivor) && Live(View(), member)
      modifies this`memories
      ensures View() == Apply(old(View()), Merge(survivor, member))
    {
      SetMemoryStatus(member, Superseded, Some(survivor));
      InheritProvenance(survivor, member);
    }

    /** A confirmed cluster: a new memory with no citations of its own takes over all of its members'. */
    method MergeCluster(group: seq<nat>, claim: Claim, asPlanned: nat -> bool) returns (survivor: Option<nat>)
      requires Distinct(group) && Shaped(View())
      modifies this`memories, this`next
      ensures survivor.Some? <==> forall id :: id in group ==> Live(old(View()), id) && asPlanned(id)
      ensures survivor.None? ==> View() == old(View())
      ensures survivor.Some? ==>
                && survivor.value == old(next) && survivor.value in memories
                && memories[survivor.value] == Memory(Active, None, AllCites(old(View()), group), claim, false)
                && Merged(AddMemory(old(View()), {}, claim), View(), survivor.value, group)
    {
      var locked := LockGroup(group, asPlanned);
      if !locked {
        return None;
      }
      ghost var s := View();
      survivor := Some(next);
      memories := memories[next := Memory(Active, None, {}, claim, false)];
      next := next + 1;
      assert forall id :: id in group ==> id in s.memories && id != survivor.value && memories[id] == s.memories[id];
      assert AllCites(View(), group) == AllCites(s, group);
      MergeMembers(survivor.value, group);
    }
  }
}
