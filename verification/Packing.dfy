/** Greedy packing under a token budget: ranked results (retrieval.py), context (context_assembly.py), profile blocks
    (profiles.py). */
module Packing {
  import opened Options

  /** Something to show, and what it costs in tokens. */
  datatype Row = Row(id: nat, cost: nat)

  function Cost(rows: seq<Row>): nat {
    if rows == [] then 0 else Cost(rows[..|rows| - 1]) + rows[|rows| - 1].cost
  }

  predicate Full(room: Option<int>, taken: nat) {
    room.Some? && taken >= room.value
  }

  /** In order, every row that still fits, until there is no room left. */
  function Fill(rows: seq<Row>, budget: int, room: Option<int>): seq<Row> {
    if rows == [] then []
    else
      var last := |rows| - 1;
      var before := Fill(rows[..last], budget, room);
      if Full(room, |before|) || Cost(before) + rows[last].cost > budget then before else before + [rows[last]]
  }

  lemma {:induction false} CostAppend(a: seq<Row>, b: seq<Row>)
    ensures Cost(a + b) == Cost(a) + Cost(b)
  {
    if b == [] {
      assert a + b == a;
    } else {
      assert (a + b)[..|a + b| - 1] == a + b[..|b| - 1];
      CostAppend(a, b[..|b| - 1]);
    }
  }

  /** What is chosen keeps to the budget and the room. */
  lemma {:induction false} FillWithin(rows: seq<Row>, budget: int, room: Option<int>)
    ensures var chosen := Fill(rows, budget, room);
            && |chosen| <= |rows| && (chosen != [] ==> Cost(chosen) <= budget)
            && (room.Some? && room.value >= 0 ==> |chosen| <= room.value)
            && (room.Some? && room.value < 0 ==> chosen == [])
  {
    if rows != [] {
      var last := |rows| - 1;
      FillWithin(rows[..last], budget, room);
      var before := Fill(rows[..last], budget, room);
      assert (before + [rows[last]])[..|before|] == before;
    }
  }

  /** Filling is prefix by prefix: a longer ranking only appends. */
  lemma {:induction false} FillPrefix(rows: seq<Row>, budget: int, room: Option<int>, k: nat)
    requires k <= |rows|
    ensures Fill(rows[..k], budget, room) <= Fill(rows, budget, room)
  {
    if k == |rows| {
      assert rows[..k] == rows;
    } else {
      var last := |rows| - 1;
      assert rows[..last][..k] == rows[..k];
      FillPrefix(rows[..last], budget, room, k);
    }
  }

  /** Row `i` was passed over. */
  predicate Skipped(rows: seq<Row>, budget: int, room: Option<int>, i: nat)
    requires i < |rows|
  {
    Fill(rows[..i + 1], budget, room) == Fill(rows[..i], budget, room)
  }

  /** A skipped row still does not fit at the end, unless the room was used up. */
  lemma SkippedStillDoesNotFit(rows: seq<Row>, budget: int, room: Option<int>, i: nat)
    requires i < |rows| && Skipped(rows, budget, room, i)
    ensures var chosen := Fill(rows, budget, room); Full(room, |chosen|) || Cost(chosen) + rows[i].cost > budget
  {
    var before, chosen := Fill(rows[..i], budget, room), Fill(rows, budget, room);
    assert rows[..i + 1][..i] == rows[..i];
    FillPrefix(rows, budget, room, i);
    CostAppend(before, chosen[|before|..]);
    assert chosen == before + chosen[|before|..];
  }

  /** Some of the rows, in their order: those at the rising positions `at`. */
  ghost predicate Picks(rows: seq<Row>, at: seq<nat>, chosen: seq<Row>) {
    && |at| == |chosen|
    && (forall i :: 0 <= i < |at| ==> at[i] < |rows| && chosen[i] == rows[at[i]])
    && (forall i, j :: 0 <= i < j < |at| ==> at[i] < at[j])
  }

  /** The rows at other positions cost more than what is left, unless the room was used up. */
  ghost predicate PassesOver(rows: seq<Row>, at: seq<nat>, full: bool, left: int) {
    forall i: nat :: i < |rows| && i !in at ==> full || rows[i].cost > left
  }

  /** A packing: some of the rows in their order, none of the others would still fit. */
  ghost predicate Packed(rows: seq<Row>, chosen: seq<Row>, full: bool, left: int) {
    exists at: seq<nat> :: Picks(rows, at, chosen) && PassesOver(rows, at, full, left)
  }

  /** One more row, taken or passed over. */
  lemma PackedMore(rows: seq<Row>, chosen: seq<Row>, full: bool, left: int, more: Row,
                   rows': seq<Row>, chosen': seq<Row>, full': bool, left': int)
    requires Packed(rows, chosen, full, left) && left' <= left && (full ==> full')
    requires rows' == rows + [more]
    requires chosen' == chosen + [more] || (chosen' == chosen && (full' || more.cost > left'))
    ensures Packed(rows', chosen', full', left')
  {
    var at :| Picks(rows, at, chosen) && PassesOver(rows, at, full, left);
    if chosen' == chosen + [more] {
      var next: nat := |rows|;
      PicksNext(rows, at, chosen, more);
      forall i: nat | i < |rows'| && i !in at + [next]
        ensures full' || rows'[i].cost > left'
      {
        assert i != next && i !in at;
      }
      assert PassesOver(rows', at + [next], full', left');
    } else {
      assert Picks(rows', at, chosen);
      assert PassesOver(rows', at, full', left');
    }
  }

  lemma PicksNext(rows: seq<Row>, at: seq<nat>, chosen: seq<Row>, more: Row)
    requires Picks(rows, at, chosen)
    ensures var next: nat := |rows|;
            Picks(rows + [more], at + [next], chosen + [more]) && next in at + [next] && forall i :: i in at ==> i in at + [next]
  {
    var next: nat := |rows|;
    var at', rows', chosen' := at + [next], rows + [more], chosen + [more];
    assert at'[|at|] == next;
    forall i | 0 <= i < |at'|
      ensures at'[i] < |rows'| && chosen'[i] == rows'[at'[i]]
    {
    }
    forall i, j | 0 <= i < j < |at'|
      ensures at'[i] < at'[j]
    {
      assert at[i] < |rows|;
    }
  }

  lemma PackedTighter(rows: seq<Row>, chosen: seq<Row>, full: bool, left: int, full': bool, left': int)
    requires Packed(rows, chosen, full, left) && left' <= left && (full ==> full')
    ensures Packed(rows, chosen, full', left')
  {
    var at :| Picks(rows, at, chosen) && PassesOver(rows, at, full, left);
    assert PassesOver(rows, at, full', left');
  }

  lemma NothingPacked(full: bool, left: int)
    ensures Packed([], [], full, left)
  {
    assert Picks([], [], []) && PassesOver([], [], full, left);
  }

  lemma CostOne(rows: seq<Row>, row: Row)
    ensures Cost(rows + [row]) == Cost(rows) + row.cost
  {
    assert (rows + [row])[..|rows|] == rows;
  }

  /** What the last row adds. */
  lemma FillStep(rows: seq<Row>, budget: int, room: Option<int>)
    requires rows != []
    ensures var last := rows[|rows| - 1];
            var before, chosen := Fill(rows[..|rows| - 1], budget, room), Fill(rows, budget, room);
            if |chosen| > |before|
            then chosen == before + [last] && Cost(chosen) == Cost(before) + last.cost
            else chosen == before && (Full(room, |chosen|) || last.cost > budget - Cost(chosen))
  {
    var front, last := rows[..|rows| - 1], rows[|rows| - 1];
    CostOne(Fill(front, budget, room), last);
    assert rows[..|rows| - 1] == front && rows[..|rows|] == rows;
    FillNext(rows, budget, room, |rows| - 1);
    hide *;
  }

  lemma FillNothing(budget: int, room: Option<int>)
    ensures Fill([], budget, room) == [] && Cost([]) == 0
    ensures Packed(Fill([], budget, room), [], Full(room, 0), budget - Cost([]))
  {
    NothingPacked(Full(room, 0), budget);
  }

  /** The filling takes rows in their order, and no row it left out would still fit, unless the room was used up. */
  lemma {:induction false} FillPacked(rows: seq<Row>, budget: int, room: Option<int>)
    ensures var chosen := Fill(rows, budget, room); Packed(rows, chosen, Full(room, |chosen|), budget - Cost(chosen))
  {
    hide Fill, Cost, Packed;
    if rows == [] {
      FillNothing(budget, room);
    } else {
      var front, last := rows[..|rows| - 1], rows[|rows| - 1];
      FillPacked(front, budget, room);
      FillStep(rows, budget, room);
      var before, chosen := Fill(front, budget, room), Fill(rows, budget, room);
      assert rows == front + [last];
      PackedMore(front, before, Full(room, |before|), budget - Cost(before), last,
                 rows, chosen, Full(room, |chosen|), budget - Cost(chosen));
    }
  }

  /** What was packed once is packed again unchanged. */
  lemma {:induction false} FillAgain(rows: seq<Row>, budget: int, room: Option<int>)
    requires rows != [] ==> Cost(rows) <= budget && (room.Some? ==> |rows| <= room.value)
    ensures Fill(rows, budget, room) == rows
  {
    if rows != [] {
      FillAgain(rows[..|rows| - 1], budget, room);
    }
  }

  /** _fill_budget. */
  method FillBudget(rows: seq<Row>, budget: int, limit: Option<int>) returns (chosen: seq<Row>, used: nat)
    ensures chosen == Fill(rows, budget, limit) && used == Cost(chosen)
    ensures Packed(rows, chosen, Full(limit, |chosen|), budget - used)
  {
    FillPacked(rows, budget, limit);
    FillNothing(budget, limit);
    hide *;
    assert rows[..0] == [];
    chosen, used := [], 0;
    for i := 0 to |rows|
      invariant chosen == Fill(rows[..i], budget, limit) && used == Cost(chosen)
    {
      FillNext(rows, budget, limit, i);
      if limit.Some? && |chosen| >= limit.value {
        FullStays(rows, budget, limit, i);
        return;
      }
      var cost := rows[i].cost;
      if used + cost > budget {
        continue;
      }
      CostOne(chosen, rows[i]);
      chosen, used := chosen + [rows[i]], used + cost;
    }
    assert rows[..|rows|] == rows;
  }

  lemma FillNext(rows: seq<Row>, budget: int, room: Option<int>, i: nat)
    requires i < |rows|
    ensures var before := Fill(rows[..i], budget, room);
            && Fill(rows[..i + 1], budget, room)
               == (if Full(room, |before|) || Cost(before) + rows[i].cost > budget then before else before + [rows[i]])
            && (Full(room, |before|) <==> room.Some? && |before| >= room.value)
  {
    assert rows[..i + 1][..i] == rows[..i];
  }

  lemma {:induction false} FullStays(rows: seq<Row>, budget: int, room: Option<int>, k: nat)
    requires k <= |rows| && Full(room, |Fill(rows[..k], budget, room)|)
    ensures Fill(rows, budget, room) == Fill(rows[..k], budget, room)
  {
    if k == |rows| {
      assert rows[..k] == rows;
    } else {
      assert rows[..|rows| - 1][..k] == rows[..k];
      FullStays(rows[..|rows| - 1], budget, room, k);
    }
  }

  // ---- facts and passages under one budget ----

  const OVERHEAD := 6

  /** A row of the alternation: a fact or a passage, with its quotation overhead. */
  datatype Side = Fact | Passage

  function Opposite(side: Side): Side {
    if side.Fact? then Passage else Fact
  }

  function Charged(row: Row): Row {
    row.(cost := row.cost + OVERHEAD)
  }

  /** Fact, passage, fact, passage, for as long as either list lasts. */
  function Alternation(facts: seq<Row>, passages: seq<Row>, n: nat): seq<(Side, Row)> {
    if n == 0 then []
    else Alternation(facts, passages, n - 1) + Turn(Fact, facts, n - 1) + Turn(Passage, passages, n - 1)
  }

  function Turn(side: Side, rows: seq<Row>, i: nat): seq<(Side, Row)> {
    if i < |rows| then [(side, rows[i])] else []
  }

  function Rows(tagged: seq<(Side, Row)>): seq<Row> {
    if tagged == [] then [] else Rows(tagged[..|tagged| - 1]) + [Charged(tagged[|tagged| - 1].1)]
  }

  /** The tagged rows that Fill takes, by side. */
  function Taken(tagged: seq<(Side, Row)>, budget: int, limit: int, side: Side): seq<Row> {
    if tagged == [] then []
    else
      var last := |tagged| - 1;
      var before := Taken(tagged[..last], budget, limit, side);
      if |Fill(Rows(tagged), budget, Some(limit))| > |Fill(Rows(tagged[..last]), budget, Some(limit))| && tagged[last].0 == side
      then before + [tagged[last].1] else before
  }

  lemma {:induction false} TakenCounts(tagged: seq<(Side, Row)>, budget: int, limit: int)
    ensures |Taken(tagged, budget, limit, Fact)| + |Taken(tagged, budget, limit, Passage)|
            == |Fill(Rows(tagged), budget, Some(limit))|
    ensures |Rows(tagged)| == |tagged|
  {
    if tagged != [] {
      TakenCounts(tagged[..|tagged| - 1], budget, limit);
      RowsLast(tagged);
    }
  }

  lemma RowsLast(tagged: seq<(Side, Row)>)
    requires tagged != []
    ensures Rows(tagged) != [] && Rows(tagged)[..|Rows(tagged)| - 1] == Rows(tagged[..|tagged| - 1])
    ensures Rows(tagged)[|Rows(tagged)| - 1] == Charged(tagged[|tagged| - 1].1)
  {
  }

  /** What rows cost in a packed context. */
  function ChargedCost(rows: seq<Row>): nat {
    Cost(rows) + OVERHEAD * |rows|
  }

  /** The rows of one side. */
  function SideRows(tagged: seq<(Side, Row)>, side: Side): seq<Row> {
    if tagged == [] then []
    else
      var last := |tagged| - 1;
      SideRows(tagged[..last], side) + if tagged[last].0 == side then [tagged[last].1] else []
  }

  function First(rows: seq<Row>, n: nat): seq<Row> {
    rows[..if n < |rows| then n else |rows|]
  }

  lemma FirstMore(rows: seq<Row>, n: nat)
    requires n > 0
    ensures First(rows, n) == First(rows, n - 1) + if n - 1 < |rows| then [rows[n - 1]] else []
  {
  }

  lemma {:induction false} AlternationSides(facts: seq<Row>, passages: seq<Row>, n: nat)
    ensures SideRows(Alternation(facts, passages, n), Fact) == First(facts, n)
    ensures SideRows(Alternation(facts, passages, n), Passage) == First(passages, n)
  {
    if n > 0 {
      hide SideRows, First, Turn;
      AlternationSides(facts, passages, n - 1);
      var before := Alternation(facts, passages, n - 1);
      var middle := before + Turn(Fact, facts, n - 1);
      assert Alternation(facts, passages, n) == middle + Turn(Passage, passages, n - 1);
      hide Alternation;
      TurnSides(before, Fact, facts, n - 1);
      TurnSides(middle, Passage, passages, n - 1);
      FirstMore(facts, n);
      FirstMore(passages, n);
    }
  }

  lemma TurnSides(tagged: seq<(Side, Row)>, side: Side, rows: seq<Row>, i: nat)
    ensures SideRows(tagged + Turn(side, rows, i), side) == SideRows(tagged, side) + if i < |rows| then [rows[i]] else []
    ensures SideRows(tagged + Turn(side, rows, i), Opposite(side)) == SideRows(tagged, Opposite(side))
  {
    if i < |rows| {
      assert (tagged + [(side, rows[i])])[..|tagged|] == tagged;
    } else {
      assert tagged + [] == tagged;
    }
  }

  /** What the last tagged row adds, to the filling and to its side. */
  lemma TakenStep(tagged: seq<(Side, Row)>, budget: int, limit: int)
    requires tagged != []
    ensures var front, last := tagged[..|tagged| - 1], tagged[|tagged| - 1];
            var before, chosen := Fill(Rows(front), budget, Some(limit)), Fill(Rows(tagged), budget, Some(limit));
            && (if |chosen| > |before|
                then |chosen| == |before| + 1 && Cost(chosen) == Cost(before) + last.1.cost + OVERHEAD
                else chosen == before && (Full(Some(limit), |chosen|) || last.1.cost > budget - Cost(chosen) - OVERHEAD))
            && forall side :: Taken(tagged, budget, limit, side)
                              == Taken(front, budget, limit, side)
                                 + if |chosen| > |before| && last.0 == side then [last.1] else []
  {
    RowsLast(tagged);
    FillStep(Rows(tagged), budget, Some(limit));
    hide Cost, Rows, Fill;
  }

  /** What the filling spends is what the two sides cost. */
  lemma {:induction false} TakenCost(tagged: seq<(Side, Row)>, budget: int, limit: int)
    ensures Cost(Fill(Rows(tagged), budget, Some(limit)))
            == ChargedCost(Taken(tagged, budget, limit, Fact)) + ChargedCost(Taken(tagged, budget, limit, Passage))
  {
    if tagged != [] {
      var front, last := tagged[..|tagged| - 1], tagged[|tagged| - 1];
      hide Cost, Rows, Fill, Taken;
      TakenCost(front, budget, limit);
      TakenStep(tagged, budget, limit);
      CostOne(Taken(front, budget, limit, Fact), last.1);
      CostOne(Taken(front, budget, limit, Passage), last.1);
    }
  }

  lemma SideStep(tagged: seq<(Side, Row)>, side: Side)
    requires tagged != []
    ensures var front, last := tagged[..|tagged| - 1], tagged[|tagged| - 1];
            SideRows(tagged, side) == SideRows(front, side) + if last.0 == side then [last.1] else []
  {
  }

  /** How a side stands beside the filling of both. */
  ghost predicate SidePacked(tagged: seq<(Side, Row)>, budget: int, limit: int, side: Side) {
    var chosen := Fill(Rows(tagged), budget, Some(limit));
    Packed(SideRows(tagged, side), Taken(tagged, budget, limit, side), |chosen| >= limit, budget - Cost(chosen) - OVERHEAD)
  }

  lemma NothingTaken(budget: int, limit: int, side: Side)
    ensures SidePacked([], budget, limit, side)
  {
    NothingPacked(0 >= limit, budget - OVERHEAD);
  }

  lemma SidePackedMore(front: seq<(Side, Row)>, last: (Side, Row), tagged: seq<(Side, Row)>, budget: int, limit: int, side: Side)
    requires tagged == front + [last] && SidePacked(front, budget, limit, side)
    ensures SidePacked(tagged, budget, limit, side)
  {
    assert tagged[..|tagged| - 1] == front && tagged[|tagged| - 1] == last;
    var before, chosen := Fill(Rows(front), budget, Some(limit)), Fill(Rows(tagged), budget, Some(limit));
    hide Cost, Rows, Fill, Taken, Packed, SideRows;
    TakenStep(tagged, budget, limit);
    SideStep(tagged, side);
    FullAt(limit, |chosen|);
    hide Full;
    var rows, rows' := SideRows(front, side), SideRows(tagged, side);
    var taken, taken' := Taken(front, budget, limit, side), Taken(tagged, budget, limit, side);
    var left, left' := budget - Cost(before) - OVERHEAD, budget - Cost(chosen) - OVERHEAD;
    if last.0 == side {
      PackedMore(rows, taken, |before| >= limit, left, last.1, rows', taken', |chosen| >= limit, left');
    } else {
      assert rows' == rows && taken' == taken;
      PackedTighter(rows, taken, |before| >= limit, left, |chosen| >= limit, left');
    }
  }

  /** Each side is a packing of its list. */
  lemma {:induction false} TakenPacked(tagged: seq<(Side, Row)>, budget: int, limit: int, side: Side)
    ensures SidePacked(tagged, budget, limit, side)
  {
    hide *;
    if tagged == [] {
      NothingTaken(budget, limit, side);
    } else {
      var front, last := tagged[..|tagged| - 1], tagged[|tagged| - 1];
      TakenPacked(front, budget, limit, side);
      assert tagged == front + [last];
      SidePackedMore(front, last, tagged, budget, limit, side);
    }
  }

  function Larger(a: nat, b: nat): nat {
    if a < b then b else a
  }

  method Offer(ghost tagged: seq<(Side, Row)>, ghost side: Side, row: Row, count: nat, used: nat, budget: int, limit: int)
    returns (took: bool, spent: nat)
    requires count == |Taken(tagged, budget, limit, Fact)| + |Taken(tagged, budget, limit, Passage)|
    requires used == Cost(Fill(Rows(tagged), budget, Some(limit)))
    ensures spent == Cost(Fill(Rows(tagged + [(side, row)]), budget, Some(limit)))
    ensures forall other :: Taken(tagged + [(side, row)], budget, limit, other)
                            == if took && other == side then Taken(tagged, budget, limit, other) + [row]
                               else Taken(tagged, budget, limit, other)
  {
    ghost var more := tagged + [(side, row)];
    assert more[..|tagged|] == tagged;
    TakenCounts(tagged, budget, limit);
    RowsLast(more);
    ghost var before := Fill(Rows(tagged), budget, Some(limit));
    assert (before + [Charged(row)])[..|before|] == before;
    var cost := row.cost + OVERHEAD;
    took := count < limit && used + cost <= budget;
    spent := if took then used + cost else used;
  }

  /** One list's turn: its next row, if it has one. */
  method TakeTurn(ghost tagged: seq<(Side, Row)>, ghost side: Side, rows: seq<Row>, index: nat, taken: seq<Row>, count: nat,
                  used: nat, budget: int, limit: int)
    returns (kept: seq<Row>, spent: nat, ghost more: seq<(Side, Row)>)
    requires taken == Taken(tagged, budget, limit, side)
    requires count == |Taken(tagged, budget, limit, Fact)| + |Taken(tagged, budget, limit, Passage)|
    requires used == Cost(Fill(Rows(tagged), budget, Some(limit)))
    ensures more == tagged + Turn(side, rows, index)
    ensures spent == Cost(Fill(Rows(more), budget, Some(limit))) && kept == Taken(more, budget, limit, side)
    ensures Taken(more, budget, limit, Opposite(side)) == Taken(tagged, budget, limit, Opposite(side))
  {
    hide Taken, Fill, Rows, Cost;
    kept, spent, more := taken, used, tagged;
    if index < |rows| {
      var took;
      took, spent := Offer(tagged, side, rows[index], count, used, budget, limit);
      more := tagged + [(side, rows[index])];
      kept := if took then taken + [rows[index]] else taken;
    } else {
      assert tagged + Turn(side, rows, index) == tagged;
    }
  }

  lemma AlternationNext(facts: seq<Row>, passages: seq<Row>, n: nat)
    ensures Alternation(facts, passages, n + 1)
            == Alternation(facts, passages, n) + Turn(Fact, facts, n) + Turn(Passage, passages, n)
    ensures Opposite(Fact) == Passage && Opposite(Passage) == Fact
  {
  }

  lemma LargerBounds(a: nat, b: nat)
    ensures Larger(a, b) >= a && Larger(a, b) >= b
  {
  }

  lemma FirstAll(rows: seq<Row>, n: nat)
    requires n >= |rows|
    ensures First(rows, n) == rows
  {
  }

  lemma FullAt(limit: int, n: nat)
    ensures Full(Some(limit), n) <==> n >= limit
  {
  }

  lemma SidesPacked(facts: seq<Row>, passages: seq<Row>, budget: int, limit: int, tagged: seq<(Side, Row)>, full: bool, left: int)
    requires tagged == Alternation(facts, passages, Larger(|facts|, |passages|))
    requires var chosen := Fill(Rows(tagged), budget, Some(limit));
             full == (|chosen| >= limit) && left == budget - Cost(chosen) - OVERHEAD
    ensures Packed(facts, Taken(tagged, budget, limit, Fact), full, left)
    ensures Packed(passages, Taken(tagged, budget, limit, Passage), full, left)
  {
    var n := Larger(|facts|, |passages|);
    hide Packed, Taken, Rows, Fill, Cost, SideRows, Alternation, First, Larger;
    LargerBounds(|facts|, |passages|);
    FirstAll(facts, n);
    FirstAll(passages, n);
    AlternationSides(facts, passages, n);
    TakenPacked(tagged, budget, limit, Fact);
    TakenPacked(tagged, budget, limit, Passage);
  }

  lemma AlternationPacked(facts: seq<Row>, passages: seq<Row>, budget: int, limit: int)
    ensures var tagged := Alternation(facts, passages, Larger(|facts|, |passages|));
            var factsOut, passagesOut := Taken(tagged, budget, limit, Fact), Taken(tagged, budget, limit, Passage);
            var used := Cost(Fill(Rows(tagged), budget, Some(limit)));
            var full := |factsOut| + |passagesOut| >= limit;
            && used == ChargedCost(factsOut) + ChargedCost(passagesOut)
            && Packed(facts, factsOut, full, budget - used - OVERHEAD)
            && Packed(passages, passagesOut, full, budget - used - OVERHEAD)
  {
    hide *;
    var tagged := Alternation(facts, passages, Larger(|facts|, |passages|));
    var chosen := Fill(Rows(tagged), budget, Some(limit));
    TakenCounts(tagged, budget, limit);
    TakenCost(tagged, budget, limit);
    SidesPacked(facts, passages, budget, limit, tagged, |chosen| >= limit, budget - Cost(chosen) - OVERHEAD);
  }

  lemma NothingOffered(facts: seq<Row>, passages: seq<Row>, budget: int, limit: int)
    ensures Alternation(facts, passages, 0) == [] && Cost(Fill(Rows([]), budget, Some(limit))) == 0
    ensures forall side :: Taken([], budget, limit, side) == []
  {
  }

  /** The alternating half of pack_context is the greedy filling of the alternation, split by side. */
  method PackAlternately(facts: seq<Row>, passages: seq<Row>, budget: int, limit: int)
    returns (factsOut: seq<Row>, passagesOut: seq<Row>, used: nat)
    ensures var tagged := Alternation(facts, passages, Larger(|facts|, |passages|));
            && factsOut == Taken(tagged, budget, limit, Fact) && passagesOut == Taken(tagged, budget, limit, Passage)
            && used == Cost(Fill(Rows(tagged), budget, Some(limit)))
    ensures used == ChargedCost(factsOut) + ChargedCost(passagesOut)
    ensures var full := |factsOut| + |passagesOut| >= limit;
            Packed(facts, factsOut, full, budget - used - OVERHEAD) && Packed(passages, passagesOut, full, budget - used - OVERHEAD)
  {
    hide *;
    factsOut, passagesOut, used := [], [], 0;
    ghost var tagged: seq<(Side, Row)> := [];
    NothingOffered(facts, passages, budget, limit);
    for index := 0 to Larger(|facts|, |passages|)
      invariant tagged == Alternation(facts, passages, index)
      invariant factsOut == Taken(tagged, budget, limit, Fact) && passagesOut == Taken(tagged, budget, limit, Passage)
      invariant used == Cost(Fill(Rows(tagged), budget, Some(limit)))
    {
      AlternationNext(facts, passages, index);
      factsOut, used, tagged := TakeTurn(tagged, Fact, facts, index, factsOut, |factsOut| + |passagesOut|, used, budget, limit);
      passagesOut, used, tagged :=
        TakeTurn(tagged, Passage, passages, index, passagesOut, |factsOut| + |passagesOut|, used, budget, limit);
    }
    AlternationPacked(facts, passages, budget, limit);
  }

  function TotalCost(blocks: seq<seq<Row>>): nat {
    if blocks == [] then 0 else TotalCost(blocks[..|blocks| - 1]) + Cost(blocks[|blocks| - 1])
  }

  /** Citations of each fact in turn, from what is left. */
  function Citations(excerpts: seq<seq<Row>>, budget: int): seq<seq<Row>> {
    if excerpts == [] then []
    else
      var before := Citations(excerpts[..|excerpts| - 1], budget);
      before + [Fill(excerpts[|excerpts| - 1], budget - TotalCost(before), None)]
  }

  lemma {:induction false} CitationsWithin(excerpts: seq<seq<Row>>, budget: int)
    ensures TotalCost(Citations(excerpts, budget)) <= budget || TotalCost(Citations(excerpts, budget)) == 0
  {
    hide Fill, TotalCost;
    assert TotalCost([]) == 0 by { TotalNothing(); }
    if excerpts != [] {
      var front := excerpts[..|excerpts| - 1];
      CitationsWithin(front, budget);
      var before := Citations(front, budget);
      var next := Fill(excerpts[|excerpts| - 1], budget - TotalCost(before), None);
      FillWithin(excerpts[|excerpts| - 1], budget - TotalCost(before), None);
      assert next == [] ==> Cost(next) == 0;
      hide Cost;
      TotalAppend(before, next);
    }
  }

  lemma TotalNothing()
    ensures TotalCost([]) == 0
  {
  }

  lemma TotalAppend(blocks: seq<seq<Row>>, block: seq<Row>)
    ensures TotalCost(blocks + [block]) == TotalCost(blocks) + Cost(block)
  {
    assert (blocks + [block])[..|blocks|] == blocks;
  }

  /** Each fact's citations are a packing of its list: none left out would still fit when all is packed. */
  lemma {:induction false} CitationsPacked(excerpts: seq<seq<Row>>, budget: int)
    ensures var sources := Citations(excerpts, budget);
            && |sources| == |excerpts|
            && forall k :: 0 <= k < |sources| ==> Packed(excerpts[k], sources[k], false, budget - TotalCost(sources))
  {
    hide Packed, Fill, Cost, TotalCost;
    if excerpts != [] {
      var front, last := excerpts[..|excerpts| - 1], excerpts[|excerpts| - 1];
      CitationsPacked(front, budget);
      var before, sources := Citations(front, budget), Citations(excerpts, budget);
      FillPacked(last, budget - TotalCost(before), None);
      TotalAppend(before, sources[|before|]);
      forall k | 0 <= k < |sources|
        ensures Packed(excerpts[k], sources[k], false, budget - TotalCost(sources))
      {
        if k < |before| {
          PackedTighter(excerpts[k], sources[k], false, budget - TotalCost(before), false, budget - TotalCost(sources));
        }
      }
    }
  }

  lemma NothingCited(budget: int)
    ensures Citations([], budget) == [] && TotalCost([]) == 0
  {
  }

  lemma CitedNext(excerpts: seq<seq<Row>>, budget: int, i: nat)
    requires i < |excerpts|
    ensures var before := Citations(excerpts[..i], budget);
            Citations(excerpts[..i + 1], budget) == before + [Fill(excerpts[i], budget - TotalCost(before), None)]
  {
    hide Fill, TotalCost;
    assert excerpts[..i + 1][..i] == excerpts[..i];
  }

  /** The citations half of pack_context. */
  method PackCitations(excerpts: seq<seq<Row>>, budget: int) returns (sources: seq<seq<Row>>, used: nat)
    ensures sources == Citations(excerpts, budget) && used == TotalCost(sources)
  {
    hide *;
    sources, used := [], 0;
    assert excerpts[..0] == [];
    NothingCited(budget);
    for i := 0 to |excerpts|
      invariant sources == Citations(excerpts[..i], budget) && used == TotalCost(sources)
    {
      CitedNext(excerpts, budget, i);
      var kept, cost := FillBudget(excerpts[i], budget - used, None);
      TotalAppend(sources, kept);
      sources, used := sources + [kept], used + cost;
    }
    assert excerpts[..|excerpts|] == excerpts;
  }

  function ExcerptsOf(facts: seq<Row>, excerpts: nat -> seq<Row>): (lists: seq<seq<Row>>)
    ensures |lists| == |facts| && forall i :: 0 <= i < |facts| ==> lists[i] == excerpts(facts[i].id)
  {
    seq(|facts|, i requires 0 <= i < |facts| => excerpts(facts[i].id))
  }

  /** pack_context: facts and passages in turn, then the facts' citations, all under one budget and at most `limit` rows;
      `excerpts` gives each fact's citations at their full cost. */
  method PackContext(facts: seq<Row>, passages: seq<Row>, excerpts: nat -> seq<Row>, budget: nat, limit: nat)
    returns (factsOut: seq<Row>, passagesOut: seq<Row>, sources: seq<seq<Row>>, used: nat)
    ensures var tagged := Alternation(facts, passages, Larger(|facts|, |passages|));
            var spent := Cost(Fill(Rows(tagged), budget, Some(limit)));
            && factsOut == Taken(tagged, budget, limit, Fact) && passagesOut == Taken(tagged, budget, limit, Passage)
            && sources == Citations(ExcerptsOf(factsOut, excerpts), budget - spent) && used == spent + TotalCost(sources)
    ensures |factsOut| + |passagesOut| <= limit && |sources| == |factsOut|
    ensures used == ChargedCost(factsOut) + ChargedCost(passagesOut) + TotalCost(sources) <= budget
    ensures var full, left := |factsOut| + |passagesOut| >= limit, budget - (used - TotalCost(sources)) - OVERHEAD;
            Packed(facts, factsOut, full, left) && Packed(passages, passagesOut, full, left)
    ensures forall k :: 0 <= k < |sources| ==> Packed(excerpts(factsOut[k].id), sources[k], false, budget - used)
  {
    hide *;
    var spent, cited;
    factsOut, passagesOut, spent := PackAlternately(facts, passages, budget, limit);
    ghost var tagged := Alternation(facts, passages, Larger(|facts|, |passages|));
    TakenWithin(tagged, budget, limit);
    var lists := ExcerptsOf(factsOut, excerpts);
    sources, cited := PackCitations(lists, budget - spent);
    CitationsWithin(lists, budget - spent);
    CitationsPacked(lists, budget - spent);
    used := spent + cited;
  }

  lemma TakenWithin(tagged: seq<(Side, Row)>, budget: nat, limit: nat)
    ensures |Taken(tagged, budget, limit, Fact)| + |Taken(tagged, budget, limit, Passage)| <= limit
    ensures Cost(Fill(Rows(tagged), budget, Some(limit))) <= budget
  {
    TakenCounts(tagged, budget, limit);
    FillWithin(Rows(tagged), budget, Some(limit));
    hide Fill, Rows, Taken;
  }

  // ---- profile blocks ----

  datatype Block = About | Style | Team | Project | Recent

  /** Percent of the budget a block may use before the last one takes what is left. */
  function Share(block: Block): nat {
    match block
    case About => 20
    case Style => 35
    case Team => 20
    case Project => 20
    case Recent => 5
  }

  /** The live rows of a block not shown in an earlier one. */
  function Unseen(rows: seq<Row>, seen: set<nat>): seq<Row> {
    if rows == [] then []
    else
      var last := rows[|rows| - 1];
      Unseen(rows[..|rows| - 1], seen) + if last.id in seen then [] else [last]
  }

  function IdsOf(rows: seq<Row>): set<nat> {
    set i | 0 <= i < |rows| :: rows[i].id
  }

  function Smaller(a: int, b: int): int {
    if a < b then a else b
  }

  function Portion(block: Block, budget: nat): nat {
    budget * Share(block) / 100
  }

  function Allowance(block: Block, isLast: bool, budget: nat, remaining: nat): nat {
    if isLast then remaining else Portion(block, budget)
  }

  /** One block: what of its unseen rows fits both its allowance and what remains. */
  function BlockRows(rows: seq<Row>, seen: set<nat>, allowance: nat, remaining: nat): seq<Row> {
    Fill(Unseen(rows, seen), Smaller(allowance, remaining), None)
  }

  datatype Profile = Profile(blocks: seq<seq<Row>>, seen: set<nat>, remaining: nat)

  /** The first `n` requested blocks, in order; rows[i] are the candidates of requested[i]. */
  function Rendered(requested: seq<Block>, rows: seq<seq<Row>>, budget: nat, n: nat): Profile
    requires n <= |requested| == |rows|
  {
    if n == 0 then Profile([], {}, budget)
    else
      var p := Rendered(requested, rows, budget, n - 1);
      var chosen := BlockRows(rows[n - 1], p.seen, Allowance(requested[n - 1], n == |requested|, budget, p.remaining), p.remaining);
      FillWithin(Unseen(rows[n - 1], p.seen),
                 Smaller(Allowance(requested[n - 1], n == |requested|, budget, p.remaining), p.remaining), None);
      Profile(p.blocks + [chosen], p.seen + IdsOf(chosen), if chosen == [] then p.remaining else p.remaining - Cost(chosen))
  }

  lemma {:induction false} UnseenMember(rows: seq<Row>, seen: set<nat>, row: Row)
    ensures row in Unseen(rows, seen) <==> row in rows && row.id !in seen
  {
    if rows != [] {
      UnseenMember(rows[..|rows| - 1], seen, row);
      assert rows == rows[..|rows| - 1] + [rows[|rows| - 1]];
    }
  }

  lemma {:induction false} FillMember(rows: seq<Row>, budget: int, room: Option<int>, row: Row)
    ensures row in Fill(rows, budget, room) ==> row in rows
  {
    if rows != [] {
      FillMember(rows[..|rows| - 1], budget, room, row);
    }
  }

  /** The next block keeps to its share, and to what remains. */
  lemma BlockWithin(requested: seq<Block>, rows: seq<seq<Row>>, budget: nat, n: nat)
    requires 0 < n <= |requested| == |rows|
    ensures var p, q := Rendered(requested, rows, budget, n - 1), Rendered(requested, rows, budget, n);
            exists chosen :: q.blocks == p.blocks + [chosen] && q.remaining == p.remaining - Cost(chosen)
                             && (n < |requested| ==> Cost(chosen) <= Portion(requested[n - 1], budget))
  {
    hide Portion;
    var p, q := Rendered(requested, rows, budget, n - 1), Rendered(requested, rows, budget, n);
    var allowance := Allowance(requested[n - 1], n == |requested|, budget, p.remaining);
    var chosen := BlockRows(rows[n - 1], p.seen, allowance, p.remaining);
    FillWithin(Unseen(rows[n - 1], p.seen), Smaller(allowance, p.remaining), None);
    assert q.blocks == p.blocks + [chosen];
    hide Rendered, Fill, Unseen;
  }

  /** The first `n` blocks, but for the last one requested, keep to their shares. */
  ghost predicate InShares(requested: seq<Block>, blocks: seq<seq<Row>>, budget: nat, n: nat)
    requires n <= |requested|
  {
    |blocks| == n && forall b :: 0 <= b < n && b < |requested| - 1 ==> Cost(blocks[b]) <= Portion(requested[b], budget)
  }

  lemma NothingRendered(requested: seq<Block>, rows: seq<seq<Row>>, budget: nat)
    requires |requested| == |rows|
    ensures var p := Rendered(requested, rows, budget, 0);
            InShares(requested, p.blocks, budget, 0) && TotalCost(p.blocks) + p.remaining == budget
  {
  }

  lemma OneMoreInShares(requested: seq<Block>, blocks: seq<seq<Row>>, chosen: seq<Row>, more: seq<seq<Row>>, budget: nat, n: nat)
    requires 0 < n <= |requested| && InShares(requested, blocks, budget, n - 1) && more == blocks + [chosen]
    requires n < |requested| ==> Cost(chosen) <= Portion(requested[n - 1], budget)
    ensures InShares(requested, more, budget, n)
  {
    hide Cost, Portion;
  }

  /** What is used and what remains add up to the budget, and every block but the last keeps to its share. */
  lemma {:induction false} ProfileBudget(requested: seq<Block>, rows: seq<seq<Row>>, budget: nat, n: nat)
    requires n <= |requested| == |rows|
    ensures var p := Rendered(requested, rows, budget, n);
            InShares(requested, p.blocks, budget, n) && TotalCost(p.blocks) + p.remaining == budget
  {
    hide *;
    if n == 0 {
      NothingRendered(requested, rows, budget);
    } else {
      ProfileBudget(requested, rows, budget, n - 1);
      BlockWithin(requested, rows, budget, n);
      var p, q := Rendered(requested, rows, budget, n - 1), Rendered(requested, rows, budget, n);
      var chosen :| q.blocks == p.blocks + [chosen] && q.remaining == p.remaining - Cost(chosen)
                    && (n < |requested| ==> Cost(chosen) <= Portion(requested[n - 1], budget));
      TotalAppend(p.blocks, chosen);
      OneMoreInShares(requested, p.blocks, chosen, q.blocks, budget, n);
    }
  }

  /** A fifth of the budget for each of about, team and project, seven twentieths for style, a twentieth for recent. */
  lemma Portions(budget: nat)
    ensures Portion(About, budget) == Portion(Team, budget) == Portion(Project, budget) == budget / 5
    ensures Portion(Style, budget) == budget * 7 / 20 && Portion(Recent, budget) == budget / 20
  {
  }

  /** Each block takes rows not shown yet in their order, and leaves none out that would still fit its share and the budget;
      the last one, which may use everything left, none that would still fit the budget. */
  lemma ProfileLeavesOut(requested: seq<Block>, rows: seq<seq<Row>>, budget: nat, n: nat)
    requires 0 < n <= |requested| == |rows|
    ensures var p, q := Rendered(requested, rows, budget, n - 1), Rendered(requested, rows, budget, n);
            && q.blocks != [] && q.blocks[..|q.blocks| - 1] == p.blocks
            && var chosen := q.blocks[|q.blocks| - 1];
               var left := if n == |requested| then q.remaining
                           else Smaller(Portion(requested[n - 1], budget) - Cost(chosen), q.remaining);
               && q.seen == p.seen + IdsOf(chosen) && q.remaining == p.remaining - Cost(chosen)
               && Packed(Unseen(rows[n - 1], p.seen), chosen, false, left)
  {
    hide *;
    var p, q := Rendered(requested, rows, budget, n - 1), Rendered(requested, rows, budget, n);
    var allowance := Allowance(requested[n - 1], n == |requested|, budget, p.remaining);
    var chosen := BlockRows(rows[n - 1], p.seen, allowance, p.remaining);
    RenderedNext(requested, rows, budget, n);
    AllowanceOf(requested[n - 1], n == |requested|, budget, p.remaining);
    BlockPacked(rows[n - 1], p.seen, allowance, p.remaining);
    SmallerLess(allowance, p.remaining, Cost(chosen));
  }

  lemma AllowanceOf(block: Block, isLast: bool, budget: nat, remaining: nat)
    ensures Allowance(block, isLast, budget, remaining) == if isLast then remaining else Portion(block, budget)
    ensures Smaller(remaining, remaining) == remaining
  {
  }

  lemma SmallerLess(a: int, b: int, c: int)
    ensures Smaller(a, b) - c == Smaller(a - c, b - c) && Smaller(b - c, b - c) == b - c
  {
  }

  lemma RenderedNext(requested: seq<Block>, rows: seq<seq<Row>>, budget: nat, n: nat)
    requires 0 < n <= |requested| == |rows|
    ensures var p, q := Rendered(requested, rows, budget, n - 1), Rendered(requested, rows, budget, n);
            var allowance := Allowance(requested[n - 1], n == |requested|, budget, p.remaining);
            var chosen := BlockRows(rows[n - 1], p.seen, allowance, p.remaining);
            && q.blocks == p.blocks + [chosen] && q.blocks[..|q.blocks| - 1] == p.blocks
            && q.seen == p.seen + IdsOf(chosen) && q.remaining == p.remaining - Cost(chosen)
  {
    NothingShown({}, 0, 0);
    hide BlockRows, Fill, Unseen, Allowance, Smaller, Cost, IdsOf;
  }

  lemma BlockPacked(rows: seq<Row>, seen: set<nat>, allowance: nat, remaining: nat)
    ensures var chosen := BlockRows(rows, seen, allowance, remaining);
            Packed(Unseen(rows, seen), chosen, false, Smaller(allowance, remaining) - Cost(chosen))
  {
    FillPacked(Unseen(rows, seen), Smaller(allowance, remaining), None);
    hide Fill, Unseen, Packed, Cost, Smaller;
  }

  /** Blocks show rows of their own candidates, and no memory appears in two. */
  lemma {:induction false} ProfileRows(requested: seq<Block>, rows: seq<seq<Row>>, budget: nat, n: nat)
    requires n <= |requested| == |rows|
    ensures var p := Rendered(requested, rows, budget, n);
            && |p.blocks| == n
            && (forall b :: 0 <= b < n ==> IdsOf(p.blocks[b]) <= p.seen && forall row :: row in p.blocks[b] ==> row in rows[b])
            && (forall b, c :: 0 <= b < c < n ==> IdsOf(p.blocks[b]) !! IdsOf(p.blocks[c]))
  {
    if n > 0 {
      ProfileRows(requested, rows, budget, n - 1);
      var p := Rendered(requested, rows, budget, n - 1);
      var q := Rendered(requested, rows, budget, n);
      var allowance := Allowance(requested[n - 1], n == |requested|, budget, p.remaining);
      var chosen := BlockRows(rows[n - 1], p.seen, allowance, p.remaining);
      BlockMembers(rows[n - 1], p.seen, allowance, p.remaining);
      assert q.blocks == p.blocks + [chosen] && q.seen == p.seen + IdsOf(chosen);
      hide Rendered, BlockRows, Allowance, IdsOf;
    }
  }

  lemma BlockMembers(rows: seq<Row>, seen: set<nat>, allowance: nat, remaining: nat)
    ensures var chosen := BlockRows(rows, seen, allowance, remaining);
            IdsOf(chosen) !! seen && forall row :: row in chosen ==> row in rows
  {
    var chosen := BlockRows(rows, seen, allowance, remaining);
    forall row | row in chosen
      ensures row in rows && row.id !in seen
    {
      FillMember(Unseen(rows, seen), Smaller(allowance, remaining), None, row);
      UnseenMember(rows, seen, row);
    }
  }

  /** The loop of render over the requested blocks. A block's candidates are distinct memories. */
  method Render(requested: seq<Block>, rows: seq<seq<Row>>, budget: nat) returns (blocks: seq<seq<Row>>, used: nat, remaining: nat)
    requires |rows| == |requested|
    requires forall b, i, j :: 0 <= b < |rows| && 0 <= i < j < |rows[b]| ==> rows[b][i].id != rows[b][j].id
    ensures var p := Rendered(requested, rows, budget, |requested|); blocks == p.blocks && remaining == p.remaining
    ensures used + remaining == budget && used == TotalCost(blocks)
  {
    blocks, used, remaining := [], 0, budget;
    var seen: set<nat> := {};
    for index := 0 to |requested|
      invariant Profile(blocks, seen, remaining) == Rendered(requested, rows, budget, index)
      invariant used + remaining == budget && used == TotalCost(blocks)
    {
      var isLast := index == |requested| - 1;
      var allowance := Allowance(requested[index], isLast, budget, remaining);
      var chosen, spent;
      chosen, seen, spent, remaining := RenderBlock(rows[index], seen, allowance, remaining);
      used := used + spent;
      assert (blocks + [chosen])[..|blocks|] == blocks;
      blocks := blocks + [chosen];
    }
  }

  /** One more candidate: shown before, or too dear, or taken. */
  lemma BlockStep(rows: seq<Row>, row: Row, seen: set<nat>, allowance: nat, remaining: nat)
    ensures var before := BlockRows(rows, seen, allowance, remaining);
            BlockRows(rows + [row], seen, allowance, remaining)
            == if row.id in seen || Cost(before) + row.cost > Smaller(allowance, remaining) then before else before + [row]
  {
    assert (rows + [row])[..|rows|] == rows;
    var unseen := Unseen(rows, seen);
    assert unseen + [] == unseen && (unseen + [row])[..|unseen|] == unseen;
  }

  lemma ChosenStep(chosen: seq<Row>, row: Row)
    ensures Cost(chosen + [row]) == Cost(chosen) + row.cost && IdsOf(chosen + [row]) == IdsOf(chosen) + {row.id}
  {
    var more := chosen + [row];
    assert more[..|chosen|] == chosen && more[|chosen|] == row;
    assert forall i :: 0 <= i < |chosen| ==> more[i] == chosen[i];
  }

  lemma BlockCandidates(rows: seq<Row>, seen: set<nat>, allowance: nat, remaining: nat, row: Row)
    requires forall other :: other in rows ==> other.id != row.id
    ensures row.id !in IdsOf(BlockRows(rows, seen, allowance, remaining))
  {
    BlockMembers(rows, seen, allowance, remaining);
    hide BlockRows;
  }

  lemma NothingShown(seen: set<nat>, allowance: nat, remaining: nat)
    ensures BlockRows([], seen, allowance, remaining) == [] && IdsOf([]) == {} && Cost([]) == 0
  {
  }

  lemma SmallerBelow(n: nat, a: nat, b: nat)
    ensures n > Smaller(a, b) <==> n > a || n > b
  {
  }

  method RenderBlock(rows: seq<Row>, seen: set<nat>, allowance: nat, remaining: nat)
    returns (chosen: seq<Row>, shown: set<nat>, spent: nat, left: nat)
    requires forall i, j :: 0 <= i < j < |rows| ==> rows[i].id != rows[j].id
    ensures chosen == BlockRows(rows, seen, allowance, remaining) && shown == seen + IdsOf(chosen)
    ensures spent == Cost(chosen) <= remaining && left == remaining - spent
  {
    hide *;
    chosen, shown, spent, left := [], seen, 0, remaining;
    assert rows[..0] == [];
    NothingShown(seen, allowance, remaining);
    for i := 0 to |rows|
      invariant chosen == BlockRows(rows[..i], seen, allowance, remaining) && shown == seen + IdsOf(chosen)
      invariant spent == Cost(chosen) <= remaining && left == remaining - spent
    {
      var row := rows[i];
      assert rows[..i + 1] == rows[..i] + [row];
      BlockStep(rows[..i], row, seen, allowance, remaining);
      SmallerBelow(spent + row.cost, allowance, remaining);
      BlockCandidates(rows[..i], seen, allowance, remaining, row);
      if row.id in shown {
        continue;
      }
      if spent + row.cost > allowance || row.cost > left {
        continue;
      }
      ChosenStep(chosen, row);
      chosen, shown := chosen + [row], shown + {row.id};
      spent, left := spent + row.cost, left - row.cost;
    }
    assert rows[..|rows|] == rows;
  }
}
