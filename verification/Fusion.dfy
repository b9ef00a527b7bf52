/** Reciprocal rank fusion of several rankings of one question (retrieval.py). */
module Fusion {
  import opened Options
  import Packing

  datatype Item = Item(id: nat, score: real, cost: nat)

  const RRF_K := 60

  function Points(rank: nat): real {
    1.0 / (RRF_K + rank + 1) as real
  }

  /** What one ranking gives an item. */
  function ListPoints(ranking: seq<Item>, id: nat): real {
    if ranking == [] then 0.0
    else
      var last := |ranking| - 1;
      ListPoints(ranking[..last], id) + if ranking[last].id == id then Points(last) else 0.0
  }

  function Fused(rankings: seq<seq<Item>>, id: nat): real {
    if rankings == [] then 0.0
    else Fused(rankings[..|rankings| - 1], id) + ListPoints(rankings[|rankings| - 1], id)
  }

  predicate Ranking(ranking: seq<Item>) {
    forall i, j :: 0 <= i < j < |ranking| ==> ranking[i].id != ranking[j].id
  }

  predicate Occurs(ranking: seq<Item>, id: nat) {
    exists i :: 0 <= i < |ranking| && ranking[i].id == id
  }

  // ---- agreement between rankings ----

  lemma {:induction false} ListPointsAt(ranking: seq<Item>, id: nat, i: nat)
    requires Ranking(ranking) && i < |ranking| && ranking[i].id == id
    ensures ListPoints(ranking, id) == Points(i)
  {
    var last := |ranking| - 1;
    if i == last {
      ListPointsAbsent(ranking[..last], id);
    } else {
      assert ranking[..last][i] == ranking[i];
      ListPointsAt(ranking[..last], id, i);
    }
  }

  lemma {:induction false} ListPointsAbsent(ranking: seq<Item>, id: nat)
    requires !Occurs(ranking, id)
    ensures ListPoints(ranking, id) == 0.0
  {
    if ranking != [] {
      var last := |ranking| - 1;
      assert ranking[last].id != id;
      forall i | 0 <= i < last ensures ranking[..last][i].id != id { assert ranking[i].id != id; }
      ListPointsAbsent(ranking[..last], id);
    }
  }

  /** How many rankings return an item, all of them at a rank below `bound`. */
  ghost predicate ReturnedBelow(rankings: seq<seq<Item>>, id: nat, bound: nat) {
    forall k, i :: 0 <= k < |rankings| && 0 <= i < |rankings[k]| && rankings[k][i].id == id ==> i < bound
  }

  function Returns(rankings: seq<seq<Item>>, id: nat): nat {
    if rankings == [] then 0
    else Returns(rankings[..|rankings| - 1], id) + if Occurs(rankings[|rankings| - 1], id) then 1 else 0
  }

  lemma PointsBounds(rank: nat, bound: nat)
    requires rank < bound
    ensures 1.0 / 61.0 >= Points(rank) >= 1.0 / (RRF_K + bound) as real > 0.0
  {
    var a, b := (RRF_K + rank + 1) as real, (RRF_K + bound) as real;
    assert 61.0 <= a <= b;
    Reciprocal(61.0, a);
    Reciprocal(a, b);
  }

  lemma Reciprocal(a: real, b: real)
    requires 0.0 < a <= b
    ensures 1.0 / a >= 1.0 / b > 0.0
  {
    assert 1.0 / a - 1.0 / b == (b - a) / (a * b);
  }

  lemma {:induction false} FusedAtLeast(rankings: seq<seq<Item>>, id: nat, bound: nat, share: real)
    requires (forall k :: 0 <= k < |rankings| ==> Ranking(rankings[k])) && ReturnedBelow(rankings, id, bound)
    requires forall i: nat :: i < bound ==> Points(i) >= share
    ensures Fused(rankings, id) >= Returns(rankings, id) as real * share
  {
    hide Points, ListPoints;
    if rankings != [] {
      var last := |rankings| - 1;
      FusedAtLeast(rankings[..last], id, bound, share);
      LastAtLeast(rankings[last], id, bound, share);
      var n := Returns(rankings[..last], id) as real;
      assert (n + 1.0) * share == n * share + share;
      hide Occurs;
    }
  }

  lemma LastAtLeast(ranking: seq<Item>, id: nat, bound: nat, share: real)
    requires Ranking(ranking) && forall i :: 0 <= i < |ranking| && ranking[i].id == id ==> i < bound
    requires forall i: nat :: i < bound ==> Points(i) >= share
    ensures ListPoints(ranking, id) >= if Occurs(ranking, id) then share else 0.0
  {
    hide Points;
    if Occurs(ranking, id) {
      var i :| 0 <= i < |ranking| && ranking[i].id == id;
      ListPointsAt(ranking, id, i);
    } else {
      ListPointsAbsent(ranking, id);
    }
  }

  lemma {:induction false} FusedAtMost(rankings: seq<seq<Item>>, id: nat)
    requires forall k :: 0 <= k < |rankings| ==> Ranking(rankings[k])
    ensures Fused(rankings, id) <= Returns(rankings, id) as real / 61.0
  {
    if rankings != [] {
      var last := |rankings| - 1;
      FusedAtMost(rankings[..last], id);
      if Occurs(rankings[last], id) {
        var i :| 0 <= i < |rankings[last]| && rankings[last][i].id == id;
        ListPointsAt(rankings[last], id, i);
        PointsBounds(i, i + 1);
      } else {
        ListPointsAbsent(rankings[last], id);
      }
    }
  }

  lemma Distribute(x: real, d: real, share: real)
    requires d == 61.0 * x - 1.0
    ensures d * share == 61.0 * (x * share) - share
  {
  }

  lemma Above(product: real, share: real)
    requires 61.0 * product - share == 1.0 && share > 0.0
    ensures product > 1.0 / 61.0
  {
  }

  lemma Inverse(d: real)
    requires d > 0.0
    ensures 1.0 / d > 0.0 && d * (1.0 / d) == 1.0
  {
  }

  lemma Shares(x: real, d: real, share: real)
    requires d == 61.0 * x - 1.0 && d > 0.0 && share == 1.0 / d
    ensures x * share > 1.0 / 61.0
  {
    Inverse(d);
    Distribute(x, d, share);
    Above(x * share, share);
  }

  /** Below rank 61(m-1), m appearances add up to more than a first place. */
  lemma ManyBeatFirst(rankings: seq<seq<Item>>, id: nat)
    requires forall k :: 0 <= k < |rankings| ==> Ranking(rankings[k])
    requires Returns(rankings, id) > 1 && ReturnedBelow(rankings, id, 61 * (Returns(rankings, id) - 1))
    ensures Fused(rankings, id) > 1.0 / 61.0
  {
    var m := Returns(rankings, id);
    var bound := 61 * (m - 1);
    var d := (RRF_K + bound) as real;
    var share := 1.0 / d;
    forall i: nat | i < bound ensures Points(i) >= share { PointsBounds(i, bound); }
    FusedAtLeast(rankings, id, bound, share);
    hide *;
    Shares(m as real, d, share);
  }

  lemma OneAtMostFirst(rankings: seq<seq<Item>>, id: nat)
    requires (forall k :: 0 <= k < |rankings| ==> Ranking(rankings[k])) && Returns(rankings, id) == 1
    ensures Fused(rankings, id) <= 1.0 / 61.0
  {
    FusedAtMost(rankings, id);
  }

  /** An item that m rankings return, each at a zero-based rank below 61(m-1), has more points than any item returned by
      one, whatever the raw scores. */
  lemma AgreementWins(rankings: seq<seq<Item>>, a: nat, b: nat)
    requires forall k :: 0 <= k < |rankings| ==> Ranking(rankings[k])
    requires Returns(rankings, a) > 1 && ReturnedBelow(rankings, a, 61 * (Returns(rankings, a) - 1))
    requires Returns(rankings, b) == 1
    ensures Fused(rankings, a) > Fused(rankings, b)
  {
    hide *;
    ManyBeatFirst(rankings, a);
    OneAtMostFirst(rankings, b);
  }

  lemma EqualPoints(m: nat)
    requires m > 0
    ensures m as real * Points(61 * (m - 1)) == Points(0)
  {
    var x := m as real;
    assert (RRF_K + 61 * (m - 1) + 1) as real == 61.0 * x;
    hide Points;
    Sixtyfirst(x);
    PointsAt(61 * (m - 1), 61.0 * x);
    PointsAt(0, 61.0);
  }

  lemma PointsAt(rank: nat, d: real)
    requires (RRF_K + rank + 1) as real == d
    ensures Points(rank) == 1.0 / d
  {
  }

  lemma Sixtyfirst(x: real)
    requires x > 0.0
    ensures x * (1.0 / (61.0 * x)) == 1.0 / 61.0
  {
  }

  /** A ranking of `last + 1` items with item 0 at rank `last`. */
  function Countdown(last: nat): (ranking: seq<Item>)
    ensures |ranking| == last + 1 && forall i :: 0 <= i <= last ==> ranking[i] == Item(last - i, 0.0, 0)
  {
    seq(last + 1, i requires 0 <= i <= last => Item(last - i, 0.0, 0))
  }

  function Copies(ranking: seq<Item>, m: nat): seq<seq<Item>> {
    if m == 0 then [] else Copies(ranking, m - 1) + [ranking]
  }

  function Scaled(m: nat, points: real): real {
    m as real * points
  }

  lemma ScaledMore(m: nat, points: real)
    requires m > 0
    ensures Scaled(m - 1, points) + points == Scaled(m, points) && Scaled(0, points) == 0.0 && Scaled(m, 0.0) == 0.0
  {
    assert (m - 1) as real == m as real - 1.0;
  }

  lemma OneMore(rankings: seq<seq<Item>>, ranking: seq<Item>, id: nat)
    ensures Fused(rankings + [ranking], id) == Fused(rankings, id) + ListPoints(ranking, id)
    ensures Returns(rankings + [ranking], id) == Returns(rankings, id) + if Occurs(ranking, id) then 1 else 0
  {
    hide ListPoints, Occurs;
    assert (rankings + [ranking])[..|rankings|] == rankings;
  }

  lemma {:induction false} CopiesFused(ranking: seq<Item>, m: nat, id: nat)
    ensures Fused(Copies(ranking, m), id) == Scaled(m, ListPoints(ranking, id))
    ensures Returns(Copies(ranking, m), id) == if Occurs(ranking, id) then m else 0
    ensures forall k :: 0 <= k < |Copies(ranking, m)| ==> Copies(ranking, m)[k] == ranking
  {
    if m > 0 {
      hide ListPoints, Occurs, Fused, Returns, Scaled;
      CopiesFused(ranking, m - 1, id);
      OneMore(Copies(ranking, m - 1), ranking, id);
      ScaledMore(m, ListPoints(ranking, id));
    }
  }

  /** Item 0 at rank 61(m-1) of m rankings, and item 61(m-1) + 1 alone in one. */
  function Tied(m: nat): seq<seq<Item>>
    requires m > 0
  {
    Copies(Countdown(61 * (m - 1)), m) + [[Item(61 * (m - 1) + 1, 0.0, 0)]]
  }

  lemma {:induction false} CountdownPoints(last: nat, id: nat)
    ensures Ranking(Countdown(last))
    ensures id <= last ==> Occurs(Countdown(last), id) && ListPoints(Countdown(last), id) == Points(last - id)
    ensures id > last ==> !Occurs(Countdown(last), id) && ListPoints(Countdown(last), id) == 0.0
  {
    var long := Countdown(last);
    if id <= last {
      assert long[last - id].id == id;
      ListPointsAt(long, id, last - id);
    } else {
      ListPointsAbsent(long, id);
    }
  }

  lemma {:induction false} AlonePoints(x: Item, id: nat)
    ensures Ranking([x]) && (Occurs([x], id) <==> id == x.id) && ListPoints([x], id) == if id == x.id then Points(0) else 0.0
  {
    assert [x][0] == x;
    if id == x.id {
      ListPointsAt([x], id, 0);
    } else {
      ListPointsAbsent([x], id);
    }
  }

  lemma TiedPoints(m: nat)
    requires m > 1
    ensures forall k :: 0 <= k < |Tied(m)| ==> Ranking(Tied(m)[k])
    ensures Returns(Tied(m), 0) == m && ReturnedBelow(Tied(m), 0, 61 * (m - 1) + 1)
    ensures Returns(Tied(m), 61 * (m - 1) + 1) == 1
    ensures Fused(Tied(m), 0) == Fused(Tied(m), 61 * (m - 1) + 1)
  {
    var last := 61 * (m - 1);
    var long, x := Countdown(last), Item(last + 1, 0.0, 0);
    hide Points, ListPoints, Copies, Countdown, Occurs, Ranking, Fused, Returns;
    assert Scaled(m, Points(last)) == Points(0) by { EqualPoints(m); }
    hide Scaled;
    ScaledMore(m, 0.0);
    CountdownPoints(last, 0);
    CountdownPoints(last, last + 1);
    AlonePoints(x, 0);
    AlonePoints(x, last + 1);
    CopiesFused(long, m, 0);
    CopiesFused(long, m, last + 1);
    OneMore(Copies(long, m), [x], 0);
    OneMore(Copies(long, m), [x], last + 1);
  }

  /** Whatever the rankings, an item that m of them return at ranks below `bound` has more points than one that a single
      ranking returns. */
  ghost predicate AgreementBeats(m: nat, bound: nat) {
    forall rankings: seq<seq<Item>>, a: nat, b: nat {:trigger Fused(rankings, a), Fused(rankings, b)} ::
      && (forall k :: 0 <= k < |rankings| ==> Ranking(rankings[k]))
      && Returns(rankings, a) == m && ReturnedBelow(rankings, a, bound) && Returns(rankings, b) == 1
      ==> Fused(rankings, a) > Fused(rankings, b)
  }

  /** m appearances below a bound always beat a single one if and only if the bound is at most 61(m-1). */
  lemma AgreementWinsExactly(m: nat, bound: nat)
    requires m > 1
    ensures AgreementBeats(m, bound) <==> bound <= 61 * (m - 1)
  {
    hide Fused, Returns, Tied, Ranking;
    if bound <= 61 * (m - 1) {
      forall rankings: seq<seq<Item>>, a: nat, b: nat |
        && (forall k :: 0 <= k < |rankings| ==> Ranking(rankings[k]))
        && Returns(rankings, a) == m && ReturnedBelow(rankings, a, bound) && Returns(rankings, b) == 1
        ensures Fused(rankings, a) > Fused(rankings, b)
      {
        AgreementWins(rankings, a, b);
      }
    } else {
      TiedPoints(m);
      var rankings, a, b := Tied(m), 0, 61 * (m - 1) + 1;
      assert ReturnedBelow(rankings, a, bound);
      assert !(Fused(rankings, a) > Fused(rankings, b));
    }
  }

  // ---- the merged order ----

  /** The order of the fused list: points, then raw score, then id. */
  predicate Ahead(rankings: seq<seq<Item>>, a: Item, b: Item) {
    var fa, fb := Fused(rankings, a.id), Fused(rankings, b.id);
    fa > fb || (fa == fb && (a.score > b.score || (a.score == b.score && a.id < b.id)))
  }

  ghost predicate Ordered(rankings: seq<seq<Item>>, items: seq<Item>) {
    forall i, j {:trigger Ahead(rankings, items[i], items[j])} :: 0 <= i < j < |items| ==> Ahead(rankings, items[i], items[j])
  }

  predicate Entry(rankings: seq<seq<Item>>, x: Item) {
    exists k :: 0 <= k < |rankings| && x in rankings[k]
  }

  /** The best-scored copy of an item among the rankings. */
  ghost predicate BestEntry(rankings: seq<seq<Item>>, x: Item) {
    Entry(rankings, x) && forall y :: Entry(rankings, y) && y.id == x.id ==> y.score <= x.score
  }

  /** Each returned item once, as its best copy, in fused order. */
  ghost predicate Merged(rankings: seq<seq<Item>>, ordered: seq<Item>) {
    && Ordered(rankings, ordered)
    && (forall i :: 0 <= i < |ordered| ==> BestEntry(rankings, ordered[i]))
    && (forall y :: Entry(rankings, y) ==> exists i :: 0 <= i < |ordered| && ordered[i].id == y.id)
  }

  /** In the merged order agreement comes first. */
  lemma AgreementPrecedes(rankings: seq<seq<Item>>, ordered: seq<Item>, i: nat, j: nat)
    requires Merged(rankings, ordered) && i < |ordered| && j < |ordered|
    requires forall k :: 0 <= k < |rankings| ==> Ranking(rankings[k])
    requires var a := ordered[i].id; Returns(rankings, a) > 1 && ReturnedBelow(rankings, a, 61 * (Returns(rankings, a) - 1))
    requires Returns(rankings, ordered[j].id) == 1
    ensures i < j
  {
    hide Fused, Returns, ReturnedBelow, BestEntry, Ranking, Entry;
    AgreementWins(rankings, ordered[i].id, ordered[j].id);
    assert j < i ==> Ahead(rankings, ordered[j], ordered[i]);
  }

  lemma AheadAsymmetric(rankings: seq<seq<Item>>, x: Item, y: Item)
    ensures !(Ahead(rankings, x, y) && Ahead(rankings, y, x))
  {
    hide Fused;
  }

  lemma {:induction false} OrderedUnique(rankings: seq<seq<Item>>, a: seq<Item>, b: seq<Item>)
    requires Ordered(rankings, a) && Ordered(rankings, b) && |a| == |b| && forall x :: x in a <==> x in b
    ensures a == b
    decreases |a|
  {
    hide Fused;
    if a != [] {
      assert a[0] in a && a[0] in b;
      var j :| 0 <= j < |b| && b[j] == a[0];
      assert b[0] in b && b[0] in a;
      var i :| 0 <= i < |a| && a[i] == b[0];
      assert i == 0 || Ahead(rankings, a[0], b[0]);
      assert j == 0 || Ahead(rankings, b[0], a[0]);
      AheadAsymmetric(rankings, a[0], b[0]);
      hide Ahead;
      forall x ensures x in a[1..] <==> x in b[1..] { TailMember(rankings, a, x); TailMember(rankings, b, x); }
      OrderedTail(rankings, a);
      OrderedTail(rankings, b);
      OrderedUnique(rankings, a[1..], b[1..]);
      assert a == [a[0]] + a[1..] && b == [b[0]] + b[1..];
    }
  }

  ghost function Members(a: seq<Item>): set<Item> {
    set x | x in a
  }

  lemma {:induction false} OrderedSize(rankings: seq<seq<Item>>, a: seq<Item>)
    requires Ordered(rankings, a)
    ensures |Members(a)| == |a|
    decreases |a|
  {
    if a != [] {
      OrderedTail(rankings, a);
      OrderedSize(rankings, a[1..]);
      TailMember(rankings, a, a[0]);
      hide Ahead;
      assert a == [a[0]] + a[1..];
      assert Members(a) == {a[0]} + Members(a[1..]);
    }
  }

  lemma OrderedTail(rankings: seq<seq<Item>>, a: seq<Item>)
    requires Ordered(rankings, a) && a != []
    ensures Ordered(rankings, a[1..])
  {
    forall i, j | 0 <= i < j < |a[1..]|
      ensures Ahead(rankings, a[1..][i], a[1..][j])
    {
      assert Ahead(rankings, a[i + 1], a[j + 1]);
    }
  }

  lemma TailMember(rankings: seq<seq<Item>>, a: seq<Item>, x: Item)
    requires Ordered(rankings, a) && a != []
    ensures x in a[1..] <==> x in a && x != a[0]
  {
    assert a == [a[0]] + a[1..];
    forall j | 1 <= j < |a| ensures a[j] != a[0] { assert Ahead(rankings, a[0], a[j]); }
  }

  /** One ranking is already in fused order. */
  lemma SingleOrdered(ranking: seq<Item>)
    requires Ranking(ranking)
    ensures Ordered([ranking], ranking)
  {
    forall i, j | 0 <= i < j < |ranking|
      ensures Ahead([ranking], ranking[i], ranking[j])
    {
      SinglePoints(ranking, i);
      SinglePoints(ranking, j);
      PointsFall(i, j);
    }
  }

  lemma SinglePoints(ranking: seq<Item>, i: nat)
    requires Ranking(ranking) && i < |ranking|
    ensures Fused([ranking], ranking[i].id) == Points(i)
  {
    assert [ranking][..0] == [];
    ListPointsAt(ranking, ranking[i].id, i);
  }

  lemma PointsFall(i: nat, j: nat)
    requires i < j
    ensures Points(i) > Points(j)
  {
    var a, b := (RRF_K + i + 1) as real, (RRF_K + j + 1) as real;
    assert 0.0 < a < b;
    StrictReciprocal(a, b);
  }

  lemma StrictReciprocal(a: real, b: real)
    requires 0.0 < a < b
    ensures 1.0 / a > 1.0 / b
  {
    assert 1.0 / a - 1.0 / b == (b - a) / (a * b);
  }

  function RowsOf(items: seq<Item>): (rows: seq<Packing.Row>)
    ensures |rows| == |items|
  {
    if items == [] then [] else RowsOf(items[..|items| - 1]) + [Packing.Row(items[|items| - 1].id, items[|items| - 1].cost)]
  }

  /** Fusing a single, already packed ranking under the same budget and limit returns it unchanged. */
  lemma FuseOne(ranking: seq<Item>, ordered: seq<Item>, budget: int, limit: Option<int>)
    requires Ranking(ranking) && Merged([ranking], ordered)
    requires ranking != [] ==> Packing.Cost(RowsOf(ranking)) <= budget && (limit.Some? ==> |ranking| <= limit.value)
    ensures ordered == ranking && Packing.Fill(RowsOf(ordered), budget, limit) == RowsOf(ranking)
  {
    SingleOrdered(ranking);
    hide Ordered, Fused;
    forall x
      ensures x in ordered <==> x in ranking
    {
      SingleMember(ranking, ordered, x);
    }
    assert Members(ordered) == Members(ranking);
    OrderedSize([ranking], ordered);
    OrderedSize([ranking], ranking);
    OrderedUnique([ranking], ordered, ranking);
    Packing.FillAgain(RowsOf(ranking), budget, limit);
  }

  lemma SingleMember(ranking: seq<Item>, ordered: seq<Item>, x: Item)
    requires Ranking(ranking) && Merged([ranking], ordered)
    ensures x in ordered <==> x in ranking
  {
    hide Ordered, Ranking, BestEntry, Entry;
    SingleEntry(ranking, x);
    if x in ordered {
      SingleBest(ranking, x);
    }
    if x in ranking {
      var i :| 0 <= i < |ordered| && ordered[i].id == x.id;
      SingleBest(ranking, ordered[i]);
      OneItem(ranking, x, ordered[i]);
    }
  }

  lemma SingleBest(ranking: seq<Item>, x: Item)
    requires BestEntry([ranking], x)
    ensures x in ranking
  {
    SingleEntry(ranking, x);
  }

  lemma OneItem(ranking: seq<Item>, x: Item, y: Item)
    requires Ranking(ranking) && x in ranking && y in ranking && x.id == y.id
    ensures x == y
  {
  }

  lemma SingleEntry(ranking: seq<Item>, x: Item)
    ensures Entry([ranking], x) <==> x in ranking
  {
    if x in ranking {
      assert x in [ranking][0];
    }
  }

  // ---- the fusion as it is carried out ----

  /** The points dictionary over the entries so far. */
  ghost predicate PointsTallied(rankings: seq<seq<Item>>, fused: map<nat, real>) {
    forall id: nat :: Fused(rankings, id) == if id in fused then fused[id] else 0.0
  }

  /** The dictionary of best copies over the entries so far. */
  ghost predicate BestTallied(rankings: seq<seq<Item>>, best: map<nat, Item>) {
    && (forall id :: id in best ==> best[id].id == id && BestEntry(rankings, best[id]))
    && (forall y :: Entry(rankings, y) ==> y.id in best)
  }

  /** Both have the same keys, listed in order of insertion. */
  ghost predicate Keyed(fused: map<nat, real>, best: map<nat, Item>, order: seq<nat>) {
    && (forall i, j :: 0 <= i < j < |order| ==> order[i] != order[j])
    && (forall id: nat :: (id in order <==> id in best) && (id in order <==> id in fused))
  }

  ghost predicate Tallied(rankings: seq<seq<Item>>, fused: map<nat, real>, best: map<nat, Item>, order: seq<nat>) {
    PointsTallied(rankings, fused) && BestTallied(rankings, best) && Keyed(fused, best, order)
  }

  lemma FusedAppend(before: seq<seq<Item>>, ranking: seq<Item>, x: Item, id: nat)
    ensures Fused(before + [ranking + [x]], id) == Fused(before + [ranking], id) + if x.id == id then Points(|ranking|) else 0.0
    ensures Fused(before + [[]], id) == Fused(before, id)
  {
    assert (before + [ranking + [x]])[..|before|] == before && (before + [ranking])[..|before|] == before;
    assert (before + [[]])[..|before|] == before && (ranking + [x])[..|ranking|] == ranking;
  }

  lemma EntryAppend(before: seq<seq<Item>>, ranking: seq<Item>, x: Item, y: Item)
    ensures Entry(before + [ranking + [x]], y) <==> Entry(before + [ranking], y) || y == x
    ensures Entry(before + [[]], y) <==> Entry(before, y)
  {
    var after, prior, empty := before + [ranking + [x]], before + [ranking], before + [[]];
    assert after[|before|] == ranking + [x] && prior[|before|] == ranking && empty[|before|] == [];
    if k :| 0 <= k < |before| && y in before[k] {
      assert y in after[k] && y in prior[k] && y in empty[k];
    }
    if y == x || y in ranking { assert y in after[|before|]; }
    if k :| 0 <= k < |after| && y in after[k] { assert k == |before| || y in before[k]; }
    if k :| 0 <= k < |prior| && y in prior[k] { assert k == |before| || y in before[k]; }
    if k :| 0 <= k < |empty| && y in empty[k] { assert k < |before| && y in before[k]; }
  }

  lemma TalliedStart(before: seq<seq<Item>>, fused: map<nat, real>, best: map<nat, Item>, order: seq<nat>)
    requires Tallied(before, fused, best, order)
    ensures Tallied(before + [[]], fused, best, order)
  {
    var x := Item(0, 0.0, 0);
    forall id: nat ensures Fused(before + [[]], id) == Fused(before, id) { FusedAppend(before, [], x, id); }
    forall y ensures Entry(before + [[]], y) <==> Entry(before, y) { EntryAppend(before, [], x, y); }
    hide Fused, Entry;
  }

  lemma PointsStep(before: seq<seq<Item>>, ranking: seq<Item>, x: Item, fused: map<nat, real>, fused': map<nat, real>)
    requires PointsTallied(before + [ranking], fused)
    requires fused' == fused[x.id := (if x.id in fused then fused[x.id] else 0.0) + Points(|ranking|)]
    ensures PointsTallied(before + [ranking + [x]], fused')
  {
    forall id: nat
      ensures Fused(before + [ranking + [x]], id) == if id in fused' then fused'[id] else 0.0
    {
      FusedAppend(before, ranking, x, id);
      hide Fused, Points;
    }
  }

  lemma BestStep(before: seq<seq<Item>>, ranking: seq<Item>, x: Item, best: map<nat, Item>, best': map<nat, Item>)
    requires BestTallied(before + [ranking], best)
    requires best' == if x.id !in best || x.score > best[x.id].score then best[x.id := x] else best
    ensures BestTallied(before + [ranking + [x]], best')
  {
    forall y
      ensures Entry(before + [ranking + [x]], y) <==> Entry(before + [ranking], y) || y == x
    {
      EntryAppend(before, ranking, x, y);
    }
    hide Entry;
    forall id | id in best'
      ensures best'[id].id == id && BestEntry(before + [ranking + [x]], best'[id])
    {
      if id in best { assert BestEntry(before + [ranking], best[id]); }
    }
  }

  lemma TalliedStep(before: seq<seq<Item>>, ranking: seq<Item>, x: Item,
                    fused: map<nat, real>, best: map<nat, Item>, order: seq<nat>,
                    fused': map<nat, real>, best': map<nat, Item>, order': seq<nat>)
    requires Tallied(before + [ranking], fused, best, order)
    requires fused' == fused[x.id := (if x.id in fused then fused[x.id] else 0.0) + Points(|ranking|)]
    requires best' == if x.id !in best || x.score > best[x.id].score then best[x.id := x] else best
    requires order' == if x.id in best then order else order + [x.id]
    ensures Tallied(before + [ranking + [x]], fused', best', order')
  {
    hide Points, PointsTallied, BestTallied;
    PointsStep(before, ranking, x, fused, fused');
    BestStep(before, ranking, x, best, best');
  }

  lemma TalliedNothing()
    ensures Tallied([], map[], map[], [])
  {
  }

  method Tally(rankings: seq<seq<Item>>) returns (fused: map<nat, real>, best: map<nat, Item>, order: seq<nat>)
    ensures Tallied(rankings, fused, best, order)
  {
    fused, best, order := map[], map[], [];
    TalliedNothing();
    hide Tallied;
    for k := 0 to |rankings|
      invariant Tallied(rankings[..k], fused, best, order)
    {
      TalliedStart(rankings[..k], fused, best, order);
      fused, best, order := TallyRanking(rankings[..k], rankings[k], fused, best, order);
      assert rankings[..k + 1] == rankings[..k] + [rankings[k]];
    }
    assert rankings[..|rankings|] == rankings;
  }

  method TallyRanking(ghost before: seq<seq<Item>>, ranking: seq<Item>,
                      fused0: map<nat, real>, best0: map<nat, Item>, order0: seq<nat>)
    returns (fused: map<nat, real>, best: map<nat, Item>, order: seq<nat>)
    requires Tallied(before + [[]], fused0, best0, order0)
    ensures Tallied(before + [ranking], fused, best, order)
  {
    hide Tallied, Points;
    fused, best, order := fused0, best0, order0;
    assert ranking[..0] == [];
    for rank := 0 to |ranking|
      invariant Tallied(before + [ranking[..rank]], fused, best, order)
    {
      var item := ranking[rank];
      ghost var f, b, o := fused, best, order;
      fused := fused[item.id := (if item.id in fused then fused[item.id] else 0.0) + Points(rank)];
      order := if item.id in best then order else order + [item.id];
      if item.id !in best || item.score > best[item.id].score {
        best := best[item.id := item];
      }
      TalliedStep(before, ranking[..rank], item, f, b, o, fused, best, order);
      assert ranking[..rank + 1] == ranking[..rank] + [item];
    }
    assert ranking[..|ranking|] == ranking;
  }

  ghost predicate Scored(rankings: seq<seq<Item>>, fused: map<nat, real>, x: Item) {
    x.id in fused && fused[x.id] == Fused(rankings, x.id)
  }

  lemma AheadTransitive(rankings: seq<seq<Item>>, x: Item, y: Item, z: Item)
    requires Ahead(rankings, x, y) && Ahead(rankings, y, z)
    ensures Ahead(rankings, x, z)
  {
    hide Fused;
  }

  /** Insert an item of a new id where the sort order puts it. */
  method InsertSorted(ghost rankings: seq<seq<Item>>, fused: map<nat, real>, sorted: seq<Item>, x: Item) returns (out: seq<Item>)
    requires Ordered(rankings, sorted) && (forall y :: y in sorted ==> Scored(rankings, fused, y) && y.id != x.id)
    requires Scored(rankings, fused, x)
    ensures Ordered(rankings, out) && forall y :: y in out <==> y in sorted || y == x
  {
    hide Fused;
    var i := 0;
    while i < |sorted|
         && (fused[sorted[i].id] > fused[x.id]
             || (fused[sorted[i].id] == fused[x.id]
                 && (sorted[i].score > x.score || (sorted[i].score == x.score && sorted[i].id < x.id))))
      invariant 0 <= i <= |sorted| && forall j :: 0 <= j < i ==> Ahead(rankings, sorted[j], x)
    {
      assert sorted[i] in sorted;
      i := i + 1;
    }
    assert i < |sorted| ==> sorted[i] in sorted && Ahead(rankings, x, sorted[i]);
    out := sorted[..i] + [x] + sorted[i..];
    InsertedOrdered(rankings, sorted, x, i);
    InsertedMembers(sorted, x, i);
  }

  lemma InsertedMembers(sorted: seq<Item>, x: Item, i: nat)
    requires i <= |sorted|
    ensures forall y :: y in sorted[..i] + [x] + sorted[i..] <==> y in sorted || y == x
  {
    assert sorted == sorted[..i] + sorted[i..];
  }

  lemma InsertedOrdered(rankings: seq<seq<Item>>, sorted: seq<Item>, x: Item, i: nat)
    requires Ordered(rankings, sorted) && i <= |sorted| && (forall j :: 0 <= j < i ==> Ahead(rankings, sorted[j], x))
    requires i < |sorted| ==> Ahead(rankings, x, sorted[i])
    ensures Ordered(rankings, sorted[..i] + [x] + sorted[i..])
  {
    var out := sorted[..i] + [x] + sorted[i..];
    forall j | i <= j < |sorted|
      ensures Ahead(rankings, x, sorted[j])
    {
      if j > i {
        assert Ahead(rankings, sorted[i], sorted[j]);
        AheadTransitive(rankings, x, sorted[i], sorted[j]);
      }
    }
    hide Ahead;
    forall a, b | 0 <= a < b < |out|
      ensures Ahead(rankings, out[a], out[b])
    {
      if b < i {
        assert out[a] == sorted[a] && out[b] == sorted[b] && Ahead(rankings, sorted[a], sorted[b]);
      } else if a > i {
        assert out[a] == sorted[a - 1] && out[b] == sorted[b - 1] && Ahead(rankings, sorted[a - 1], sorted[b - 1]);
      } else if a < i < b {
        assert out[a] == sorted[a] && out[b] == sorted[b - 1] && Ahead(rankings, sorted[a], sorted[b - 1]);
      }
    }
  }

  datatype Fusion = NothingToFuse | FusedInto(ordered: seq<Item>, chosen: seq<Packing.Row>, used: nat)

  /** fuse: merge the rankings, then pack the merged order. */
  method Fuse(rankings: seq<seq<Item>>, budget: int, limit: Option<int>) returns (result: Fusion)
    ensures result.NothingToFuse? <==> rankings == []
    ensures result.FusedInto? ==>
              && Merged(rankings, result.ordered)
              && result.chosen == Packing.Fill(RowsOf(result.ordered), budget, limit)
              && result.used == Packing.Cost(result.chosen)
  {
    if rankings == [] {
      return NothingToFuse;
    }
    var fused, best, order := Tally(rankings);
    var sorted: seq<Item> := [];
    hide Fused, BestEntry;
    for i := 0 to |order|
      invariant Ordered(rankings, sorted)
      invariant forall y :: y in sorted <==> y.id in order[..i] && y.id in best && y == best[y.id]
    {
      assert order[i] in order && order[..i + 1] == order[..i] + [order[i]] && order[i] !in order[..i];
      forall y | y in sorted ensures Scored(rankings, fused, y) && y.id != order[i] { assert y.id in order; }
      sorted := InsertSorted(rankings, fused, sorted, best[order[i]]);
    }
    assert order[..|order|] == order;
    SortedMerged(rankings, fused, best, order, sorted);
    var chosen, used := Packing.FillBudget(RowsOf(sorted), budget, limit);
    result := FusedInto(sorted, chosen, used);
  }

  lemma SortedMerged(rankings: seq<seq<Item>>, fused: map<nat, real>, best: map<nat, Item>, order: seq<nat>, sorted: seq<Item>)
    requires Tallied(rankings, fused, best, order) && Ordered(rankings, sorted)
    requires forall y :: y in sorted <==> y.id in order && y.id in best && y == best[y.id]
    ensures Merged(rankings, sorted)
  {
    hide Fused, BestEntry, Ordered, Entry;
    forall i | 0 <= i < |sorted| ensures BestEntry(rankings, sorted[i]) { assert sorted[i] in sorted; }
    forall y | Entry(rankings, y)
      ensures exists i :: 0 <= i < |sorted| && sorted[i].id == y.id
    {
      assert best[y.id] in sorted;
      var i :| 0 <= i < |sorted| && sorted[i] == best[y.id];
    }
  }
}
