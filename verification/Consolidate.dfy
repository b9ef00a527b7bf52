/** Near-duplicate clusters of a consolidation pass (consolidate.py): a blocked all-pairs scan, then components. */
module Consolidate {
  import opened Grouping
  import opened Components

  const MAX_CLUSTER_MEMBERS := 6

  // ---- components ----

  /** The ids connected to `x`, in the order of `ids`. */
  ghost function ClassOf(ids: seq<Id>, edges: set<Edge>, x: Id): seq<Id> {
    if ids == [] then []
    else ClassOf(ids[..|ids| - 1], edges, x) + if Connected(edges, ids[|ids| - 1], x) then [ids[|ids| - 1]] else []
  }

  lemma {:induction false} ClassMember(ids: seq<Id>, edges: set<Edge>, x: Id, y: Id)
    ensures y in ClassOf(ids, edges, x) <==> y in ids && Connected(edges, y, x)
  {
    if ids != [] {
      ClassMember(ids[..|ids| - 1], edges, x, y);
      assert ids == ids[..|ids| - 1] + [ids[|ids| - 1]];
    }
  }

  lemma {:induction false} ClassIsSelected(ids: seq<Id>, roots: seq<Id>, root: map<Id, Id>, edges: set<Edge>, x: Id)
    requires |roots| == |ids| && Represents(root, edges) && x in root
    requires forall i :: 0 <= i < |ids| ==> ids[i] in root && roots[i] == root[ids[i]]
    ensures Select(ids, roots, root[x]) == ClassOf(ids, edges, x)
  {
    if ids != [] {
      var last := |ids| - 1;
      ClassIsSelected(ids[..last], roots[..last], root, edges, x);
      SameRootIffConnected(root, edges, ids[last], x);
    }
  }

  /** Exactly the classes of connected ids that have more than one member, each once, members in the order of `ids`. */
  ghost predicate AreComponents(ids: seq<Id>, edges: set<Edge>, groups: seq<seq<Id>>) {
    && (forall g {:trigger groups[g]} :: 0 <= g < |groups| ==>
          |groups[g]| > 1 && groups[g] == ClassOf(ids, edges, groups[g][0]) && groups[g][0] in ids)
    && (forall x :: x in ids && |ClassOf(ids, edges, x)| > 1 ==> ClassOf(ids, edges, x) in groups)
    && (forall g, h, x :: 0 <= g < |groups| && 0 <= h < |groups| && x in groups[g] && x in groups[h] ==> g == h)
  }

  /** The groups with more than one member, and the keys they belong to. */
  ghost predicate Chosen(order: seq<Id>, byRoot: map<Id, seq<Id>>, keys: seq<Id>, groups: seq<seq<Id>>) {
    && |keys| == |groups| && Distinct(keys)
    && (forall g :: 0 <= g < |groups| ==> keys[g] in order && keys[g] in byRoot && groups[g] == byRoot[keys[g]] && |groups[g]| > 1)
    && (forall key :: key in order && key in byRoot && |byRoot[key]| > 1 ==> key in keys)
  }

  lemma ChosenAreComponents(ids: seq<Id>, edges: set<Edge>, root: map<Id, Id>, roots: seq<Id>, order: seq<Id>,
                            byRoot: map<Id, seq<Id>>, keys: seq<Id>, groups: seq<seq<Id>>)
    requires |roots| == |ids| && Represents(root, edges)
    requires forall i :: 0 <= i < |ids| ==> ids[i] in root && roots[i] == root[ids[i]]
    requires Grouped(ids, roots, order, byRoot) && Chosen(order, byRoot, keys, groups)
    ensures AreComponents(ids, edges, groups)
  {
    hide Connected, Represents, Select, ClassOf;
    forall g, x | 0 <= g < |groups| && x in groups[g]
      ensures x in ids && x in root && root[x] == keys[g]
    {
      SelectMember(ids, roots, keys[g], x);
    }
    forall g | 0 <= g < |groups|
      ensures groups[g] == ClassOf(ids, edges, groups[g][0])
    {
      var x := groups[g][0];
      assert x in groups[g];
      ClassIsSelected(ids, roots, root, edges, x);
    }
    forall x | x in ids && |ClassOf(ids, edges, x)| > 1
      ensures ClassOf(ids, edges, x) in groups
    {
      var i :| 0 <= i < |ids| && ids[i] == x;
      ClassIsSelected(ids, roots, root, edges, x);
      assert roots[i] in roots && root[x] in keys;
      var g :| 0 <= g < |keys| && keys[g] == root[x];
      assert groups[g] == ClassOf(ids, edges, x);
    }
    forall g, h, x | 0 <= g < |groups| && 0 <= h < |groups| && x in groups[g] && x in groups[h]
      ensures g == h
    {
      assert keys[g] == root[x] && keys[h] == root[x];
    }
  }

  method JoinAll(ids: seq<Id>, edges: set<Edge>) returns (forest: UnionFind)
    requires forall a, b :: (a, b) in edges ==> a in ids && b in ids
    ensures fresh(forest) && forest.Valid() && (forall x :: x in forest.parent <==> x in ids)
    ensures Represents(forest.root, edges)
  {
    hide Connected, Represents, Forest, Rerooted;
    forest := new UnionFind(ids);
    var rest := edges;
    assert edges - rest == {};
    while rest != {}
      invariant forest.Valid() && (forall x :: x in forest.parent <==> x in ids) && fresh(forest)
      invariant rest <= edges && Represents(forest.root, edges - rest)
      decreases |rest|
    {
      var e :| e in rest;
      assert e == (e.0, e.1);
      LinkRepresents(forest.root, edges - rest, e.0, e.1);
      forest.Union(e.0, e.1);
      assert edges - (rest - {e}) == (edges - rest) + {e};
      rest := rest - {e};
    }
    assert edges - rest == edges;
  }

  method RootsOf(forest: UnionFind, ids: seq<Id>) returns (roots: seq<Id>)
    requires forest.Valid() && forall x :: x in ids ==> x in forest.parent
    modifies forest`parent
    ensures |roots| == |ids| && forall i :: 0 <= i < |ids| ==> ids[i] in forest.root && roots[i] == forest.root[ids[i]]
  {
    hide Forest;
    roots := [];
    for i := 0 to |ids|
      invariant forest.Valid() && forest.parent.Keys == old(forest.parent.Keys)
      invariant |roots| == i && forall j :: 0 <= j < i ==> ids[j] in forest.root && roots[j] == forest.root[ids[j]]
    {
      var r := forest.Find(ids[i]);
      roots := roots + [r];
    }
  }

  method LargerThanOne(order: seq<Id>, byRoot: map<Id, seq<Id>>) returns (groups: seq<seq<Id>>, ghost keys: seq<Id>)
    requires Distinct(order) && forall key :: key in order ==> key in byRoot
    ensures Chosen(order, byRoot, keys, groups)
  {
    groups, keys := [], [];
    for i := 0 to |order|
      invariant Chosen(order[..i], byRoot, keys, groups)
    {
      assert order[..i + 1] == order[..i] + [order[i]] && order[i] !in order[..i];
      if |byRoot[order[i]]| > 1 {
        groups, keys := groups + [byRoot[order[i]]], keys + [order[i]];
      }
    }
    assert order[..|order|] == order;
  }

  /** _connected_components: join every edge, group the ids by root, keep the groups of more than one. */
  method ConnectedComponents(ids: seq<Id>, edges: set<Edge>) returns (groups: seq<seq<Id>>)
    requires forall a, b :: (a, b) in edges ==> a in ids && b in ids
    ensures AreComponents(ids, edges, groups)
  {
    hide Connected, Represents, Forest, Select, ClassOf, AreComponents;
    var forest := JoinAll(ids, edges);
    var roots := RootsOf(forest, ids);
    var order, byRoot := GroupBy(ids, roots);
    ghost var keys;
    groups, keys := LargerThanOne(order, byRoot);
    ChosenAreComponents(ids, edges, forest.root, roots, order, byRoot, keys, groups);
  }

  // ---- the scan ----

  /** The score of a pair: the dot product of two rows, whatever its value. */
  type Score = (nat, nat) -> real

  predicate Similar(score: Score, threshold: real, i: nat, j: nat) {
    score(i, j) >= threshold
  }

  /** The columns past the diagonal that one row is similar to. */
  function RowPairs(score: Score, threshold: real, i: nat, n: nat): seq<(nat, nat)> {
    if n == 0 then []
    else RowPairs(score, threshold, i, n - 1) + if n - 1 > i && Similar(score, threshold, i, n - 1) then [(i, n - 1)] else []
  }

  /** All similar pairs of the first `rows` of `n` rows, in order. */
  function AllPairs(score: Score, threshold: real, rows: nat, n: nat): seq<(nat, nat)> {
    if rows == 0 then [] else AllPairs(score, threshold, rows - 1, n) + RowPairs(score, threshold, rows - 1, n)
  }

  predicate Before(p: (nat, nat), q: (nat, nat)) {
    p.0 < q.0 || (p.0 == q.0 && p.1 < q.1)
  }

  lemma {:induction false} RowPairsMember(score: Score, threshold: real, i: nat, n: nat, p: (nat, nat))
    ensures p in RowPairs(score, threshold, i, n) <==> p.0 == i && i < p.1 < n && Similar(score, threshold, i, p.1)
  {
    if n > 0 {
      RowPairsMember(score, threshold, i, n - 1, p);
    }
  }

  lemma {:induction false} AllPairsMember(score: Score, threshold: real, rows: nat, n: nat, p: (nat, nat))
    ensures p in AllPairs(score, threshold, rows, n) <==> p.0 < rows && p.0 < p.1 < n && Similar(score, threshold, p.0, p.1)
  {
    hide Similar, RowPairs;
    if rows > 0 {
      AllPairsMember(score, threshold, rows - 1, n, p);
      RowPairsMember(score, threshold, rows - 1, n, p);
    }
  }

  ghost predicate Rising(ps: seq<(nat, nat)>) {
    forall a, b :: 0 <= a < b < |ps| ==> Before(ps[a], ps[b])
  }

  lemma RisingConcat(ps: seq<(nat, nat)>, qs: seq<(nat, nat)>)
    requires Rising(ps) && Rising(qs) && forall p, q :: p in ps && q in qs ==> Before(p, q)
    ensures Rising(ps + qs)
  {
    hide Before;
    forall a, b | 0 <= a < b < |ps + qs|
      ensures Before((ps + qs)[a], (ps + qs)[b])
    {
      if a < |ps| <= b {
        assert ps[a] in ps && qs[b - |ps|] in qs;
      }
    }
  }

  lemma {:induction false} RowPairsRising(score: Score, threshold: real, i: nat, n: nat)
    ensures Rising(RowPairs(score, threshold, i, n))
  {
    if n > 0 {
      RowPairsRising(score, threshold, i, n - 1);
      var front := RowPairs(score, threshold, i, n - 1);
      forall p | p in front ensures Before(p, (i, n - 1)) { RowPairsMember(score, threshold, i, n - 1, p); }
      RisingConcat(front, [(i, n - 1)]);
      assert front + [] == front;
    }
  }

  lemma {:induction false} AllPairsRising(score: Score, threshold: real, rows: nat, n: nat)
    ensures Rising(AllPairs(score, threshold, rows, n))
  {
    hide Similar, RowPairs;
    if rows > 0 {
      AllPairsRising(score, threshold, rows - 1, n);
      RowPairsRising(score, threshold, rows - 1, n);
      var front, row := AllPairs(score, threshold, rows - 1, n), RowPairs(score, threshold, rows - 1, n);
      forall p, q | p in front && q in row
        ensures Before(p, q)
      {
        AllPairsMember(score, threshold, rows - 1, n, p);
        RowPairsMember(score, threshold, rows - 1, n, q);
      }
      hide Before;
      RisingConcat(front, row);
    }
  }

  /** Each pair i < j at or above the threshold, exactly once, in rising order, and nothing else. */
  lemma AllPairsExact(score: Score, threshold: real, n: nat)
    ensures forall p :: p in AllPairs(score, threshold, n, n) <==> p.0 < p.1 < n && Similar(score, threshold, p.0, p.1)
    ensures Rising(AllPairs(score, threshold, n, n))
  {
    forall p ensures p in AllPairs(score, threshold, n, n) <==> p.0 < p.1 < n && Similar(score, threshold, p.0, p.1) {
      AllPairsMember(score, threshold, n, n, p);
    }
    AllPairsRising(score, threshold, n, n);
  }

  /** _similar_pairs: blocks of rows against every column; the block size shows nowhere in the result. */
  method SimilarPairs(score: Score, threshold: real, n: nat, block: nat) returns (pairs: seq<(nat, nat)>)
    requires block > 0
    ensures pairs == AllPairs(score, threshold, n, n)
  {
    pairs := [];
    var start := 0;
    while start < n
      invariant 0 <= start && pairs == AllPairs(score, threshold, if start < n then start else n, n)
      decreases n - start
    {
      var end := if start + block < n then start + block else n;
      for i := start to end
        invariant pairs == AllPairs(score, threshold, i, n)
      {
        ghost var before := pairs;
        for j := 0 to n
          invariant pairs == before + RowPairs(score, threshold, i, j)
        {
          if Similar(score, threshold, i, j) && j > i {
            pairs := pairs + [(i, j)];
          }
        }
      }
      start := start + block;
    }
  }

  // ---- clusters ----

  /** A live memory of the pass: its id, and what must agree for two to be compared: scope, subject, kind, context,
      validity and source role. */
  datatype Row = Row(id: Id, identity: nat)

  function Ids(rows: seq<Row>): (ids: seq<Id>)
    ensures |ids| == |rows| && forall i :: 0 <= i < |rows| ==> ids[i] == rows[i].id
  {
    seq(|rows|, i requires 0 <= i < |rows| => rows[i].id)
  }

  function Identities(rows: seq<Row>): (keys: seq<nat>)
    ensures |keys| == |rows| && forall i :: 0 <= i < |rows| ==> keys[i] == rows[i].identity
  {
    seq(|rows|, i requires 0 <= i < |rows| => rows[i].identity)
  }

  ghost function EdgesOf(ids: seq<Id>, score: (Id, Id) -> real, threshold: real): set<Edge> {
    set i, j | 0 <= i < j < |ids| && score(ids[i], ids[j]) >= threshold :: (ids[i], ids[j])
  }

  /** A class of more than one connected id. */
  ghost predicate IsClass(ids: seq<Id>, edges: set<Edge>, c: seq<Id>) {
    |c| > 1 && exists x :: x in ids && c == ClassOf(ids, edges, x)
  }

  /** A near-duplicate cluster: a component of similarity among the memories of one identity. */
  ghost predicate IsCluster(rows: seq<Row>, score: (Id, Id) -> real, threshold: real, identity: nat, c: seq<Id>) {
    var ids := Select(Ids(rows), Identities(rows), identity);
    IsClass(ids, EdgesOf(ids, score, threshold), c)
  }

  predicate SameMembers(c: seq<Id>, g: seq<Id>) {
    (forall x :: x in c ==> x in g) && (forall x :: x in g ==> x in c)
  }

  /** The cheap path already owns this cluster. */
  predicate Owned(exact: seq<seq<Id>>, c: seq<Id>) {
    exists g :: g in exact && SameMembers(c, g)
  }

  lemma ComponentIffClass(ids: seq<Id>, edges: set<Edge>, groups: seq<seq<Id>>, c: seq<Id>)
    requires AreComponents(ids, edges, groups)
    ensures c in groups <==> IsClass(ids, edges, c)
  {
    if c in groups {
      var g :| 0 <= g < |groups| && groups[g] == c;
    }
  }

  lemma {:induction false} ClassSame(ids: seq<Id>, edges: set<Edge>, x: Id, y: Id)
    requires Connected(edges, x, y)
    ensures ClassOf(ids, edges, x) == ClassOf(ids, edges, y)
  {
    hide Connected;
    if ids != [] {
      ClassSame(ids[..|ids| - 1], edges, x, y);
      var z := ids[|ids| - 1];
      if Connected(edges, z, x) { ConnectedThrough(edges, z, x, y); }
      if Connected(edges, z, y) {
        ConnectedBack(edges, x, y);
        ConnectedThrough(edges, z, y, x);
      }
    }
  }

  /** Classes of one set of ids that share a member are one. */
  lemma ClassesDisjoint(ids: seq<Id>, edges: set<Edge>, c: seq<Id>, d: seq<Id>, x: Id)
    requires IsClass(ids, edges, c) && IsClass(ids, edges, d) && x in c && x in d
    ensures c == d
  {
    hide Connected, ClassOf;
    var y :| y in ids && c == ClassOf(ids, edges, y);
    var z :| z in ids && d == ClassOf(ids, edges, z);
    ClassMember(ids, edges, y, x);
    ClassMember(ids, edges, z, x);
    ClassSame(ids, edges, x, y);
    ClassSame(ids, edges, x, z);
  }

  /** Clusters of all identities that share a member are one. */
  lemma ClustersDisjoint(rows: seq<Row>, score: (Id, Id) -> real, threshold: real, j: nat, k: nat, c: seq<Id>, d: seq<Id>, x: Id)
    requires Distinct(Ids(rows))
    requires IsCluster(rows, score, threshold, j, c) && IsCluster(rows, score, threshold, k, d) && x in c && x in d
    ensures j == k && c == d
  {
    hide ClassOf;
    MemberOfIdentity(rows, score, threshold, j, c, x);
    MemberOfIdentity(rows, score, threshold, k, d, x);
    var ids := Select(Ids(rows), Identities(rows), j);
    ClassesDisjoint(ids, EdgesOf(ids, score, threshold), c, d, x);
  }

  lemma MemberOfIdentity(rows: seq<Row>, score: (Id, Id) -> real, threshold: real, identity: nat, c: seq<Id>, x: Id)
    requires IsCluster(rows, score, threshold, identity, c) && x in c
    ensures exists i :: 0 <= i < |rows| && Ids(rows)[i] == x && Identities(rows)[i] == identity
  {
    var ids := Select(Ids(rows), Identities(rows), identity);
    var edges := EdgesOf(ids, score, threshold);
    var y :| y in ids && c == ClassOf(ids, edges, y);
    ClassMember(ids, edges, y, x);
    SelectMember(Ids(rows), Identities(rows), identity, x);
  }

  /** What the clusters of one identity are sorted into. */
  ghost predicate Sorted(ids: seq<Id>, edges: set<Edge>, exact: seq<seq<Id>>, clusters: seq<seq<Id>>, oversized: seq<seq<Id>>) {
    && (forall c :: c in clusters <==> IsClass(ids, edges, c) && !Owned(exact, c) && |c| <= MAX_CLUSTER_MEMBERS)
    && (forall c :: c in oversized <==> IsClass(ids, edges, c) && !Owned(exact, c) && |c| > MAX_CLUSTER_MEMBERS)
  }

  method SimilarEdges(ids: seq<Id>, score: (Id, Id) -> real, threshold: real, block: nat) returns (edges: set<Edge>)
    requires block > 0
    ensures edges == EdgesOf(ids, score, threshold)
    ensures forall a, b :: (a, b) in edges ==> a in ids && b in ids
  {
    var cell: Score := (i: nat, j: nat) => if i < |ids| && j < |ids| then score(ids[i], ids[j]) else 0.0;
    var pairs := SimilarPairs(cell, threshold, |ids|, block);
    AllPairsExact(cell, threshold, |ids|);
    assert forall p :: p in pairs ==> p.0 < |ids| && p.1 < |ids|;
    edges := set p | p in pairs :: (ids[p.0], ids[p.1]);
    forall i, j | 0 <= i < j < |ids| && score(ids[i], ids[j]) >= threshold
      ensures (ids[i], ids[j]) in edges
    {
      assert (i, j) in pairs;
    }
  }

  lemma DistinctJoin(a: seq<seq<Id>>, b: seq<seq<Id>>)
    ensures Distinct(a + b) <==> Distinct(a) && Distinct(b) && forall x :: x in a ==> x !in b
  {
    assert forall i | 0 <= i < |a| :: (a + b)[i] == a[i];
    assert forall i | 0 <= i < |b| :: (a + b)[|a| + i] == b[i];
    if Distinct(a) && Distinct(b) && forall x :: x in a ==> x !in b {
      forall i, j | 0 <= i < j < |a + b|
        ensures (a + b)[i] != (a + b)[j]
      {
        assert j >= |a| ==> (a + b)[j] in b;
        assert i < |a| ==> (a + b)[i] in a;
      }
    }
  }

  lemma ComponentsDistinct(ids: seq<Id>, edges: set<Edge>, groups: seq<seq<Id>>)
    requires AreComponents(ids, edges, groups)
    ensures Distinct(groups)
  {
    hide ClassOf;
    forall g, h | 0 <= g < h < |groups|
      ensures groups[g] != groups[h]
    {
      assert groups[g][0] in groups[g];
    }
  }

  method SortClasses(groups: seq<seq<Id>>, exact: seq<seq<Id>>) returns (clusters: seq<seq<Id>>, oversized: seq<seq<Id>>)
    ensures forall c :: c in clusters <==> c in groups && !Owned(exact, c) && |c| <= MAX_CLUSTER_MEMBERS
    ensures forall c :: c in oversized <==> c in groups && !Owned(exact, c) && |c| > MAX_CLUSTER_MEMBERS
    ensures Distinct(groups) ==> Distinct(clusters + oversized)
  {
    clusters, oversized := [], [];
    for i := 0 to |groups|
      invariant forall c :: c in clusters <==> c in groups[..i] && !Owned(exact, c) && |c| <= MAX_CLUSTER_MEMBERS
      invariant forall c :: c in oversized <==> c in groups[..i] && !Owned(exact, c) && |c| > MAX_CLUSTER_MEMBERS
      invariant Distinct(groups) ==> Distinct(clusters + oversized)
    {
      hide Owned;
      if Distinct(groups) {
        assert groups[i] !in groups[..i];
        hide Distinct;
        DistinctJoin(clusters, oversized);
        DistinctJoin(clusters, [groups[i]]);
        DistinctJoin(oversized, [groups[i]]);
        DistinctJoin(clusters + [groups[i]], oversized);
        DistinctJoin(clusters, oversized + [groups[i]]);
      }
      assert groups[..i + 1] == groups[..i] + [groups[i]];
      if Owned(exact, groups[i]) {
        continue;
      }
      if |groups[i]| > MAX_CLUSTER_MEMBERS {
        oversized := oversized + [groups[i]];
      } else {
        clusters := clusters + [groups[i]];
      }
    }
    assert groups[..|groups|] == groups;
  }

  method ClustersOf(ids: seq<Id>, score: (Id, Id) -> real, threshold: real, exact: seq<seq<Id>>, block: nat)
    returns (clusters: seq<seq<Id>>, oversized: seq<seq<Id>>)
    requires block > 0
    ensures Sorted(ids, EdgesOf(ids, score, threshold), exact, clusters, oversized) && Distinct(clusters + oversized)
  {
    hide AreComponents, IsClass, Owned, EdgesOf;
    var edges := SimilarEdges(ids, score, threshold, block);
    var groups := ConnectedComponents(ids, edges);
    forall c ensures c in groups <==> IsClass(ids, edges, c) { ComponentIffClass(ids, edges, groups, c); }
    ComponentsDistinct(ids, edges, groups);
    clusters, oversized := SortClasses(groups, exact);
  }

  /** A cluster of one of these identities. */
  ghost predicate ClusterIn(rows: seq<Row>, score: (Id, Id) -> real, threshold: real, keys: seq<nat>, c: seq<Id>) {
    exists k :: k in keys && IsCluster(rows, score, threshold, k, c)
  }

  /** The clusters of these identities, sorted. */
  ghost predicate Collected(rows: seq<Row>, score: (Id, Id) -> real, threshold: real, exact: seq<seq<Id>>, keys: seq<nat>,
                            clusters: seq<seq<Id>>, oversized: seq<seq<Id>>) {
    && (forall c :: c in clusters <==> ClusterIn(rows, score, threshold, keys, c) && !Owned(exact, c) && |c| <= MAX_CLUSTER_MEMBERS)
    && (forall c :: c in oversized <==> ClusterIn(rows, score, threshold, keys, c) && !Owned(exact, c) && |c| > MAX_CLUSTER_MEMBERS)
  }

  lemma CollectMore(rows: seq<Row>, score: (Id, Id) -> real, threshold: real, exact: seq<seq<Id>>, keys: seq<nat>, key: nat,
                    clusters: seq<seq<Id>>, oversized: seq<seq<Id>>, more: seq<seq<Id>>, larger: seq<seq<Id>>)
    requires Collected(rows, score, threshold, exact, keys, clusters, oversized)
    requires var ids := Select(Ids(rows), Identities(rows), key); Sorted(ids, EdgesOf(ids, score, threshold), exact, more, larger)
    ensures Collected(rows, score, threshold, exact, keys + [key], clusters + more, oversized + larger)
  {
    hide IsClass, Owned, EdgesOf, Select;
    forall c
      ensures ClusterIn(rows, score, threshold, keys + [key], c)
              <==> ClusterIn(rows, score, threshold, keys, c) || IsCluster(rows, score, threshold, key, c)
    {
      assert key in keys + [key];
    }
  }

  /** The clusters of another identity are none of those collected before. */
  lemma CollectDistinct(rows: seq<Row>, score: (Id, Id) -> real, threshold: real, exact: seq<seq<Id>>, keys: seq<nat>, key: nat,
                        clusters: seq<seq<Id>>, oversized: seq<seq<Id>>, more: seq<seq<Id>>, larger: seq<seq<Id>>)
    requires Distinct(Ids(rows)) && key !in keys
    requires Collected(rows, score, threshold, exact, keys, clusters, oversized)
    requires var ids := Select(Ids(rows), Identities(rows), key); Sorted(ids, EdgesOf(ids, score, threshold), exact, more, larger)
    requires Distinct(clusters + oversized) && Distinct(more + larger)
    ensures Distinct((clusters + more) + (oversized + larger))
  {
    forall c | c in clusters + oversized && c in more + larger
      ensures false
    {
      hide Owned, EdgesOf, Select;
      assert IsCluster(rows, score, threshold, key, c) && |c| > 1;
      assert ClusterIn(rows, score, threshold, keys, c);
      var k :| k in keys && IsCluster(rows, score, threshold, k, c);
      hide IsCluster, IsClass;
      ClustersDisjoint(rows, score, threshold, k, key, c, c, c[0]);
    }
    hide *;
    DistinctWoven(clusters, oversized, more, larger);
  }

  lemma DistinctWoven(a: seq<seq<Id>>, b: seq<seq<Id>>, c: seq<seq<Id>>, d: seq<seq<Id>>)
    requires Distinct(a + b) && Distinct(c + d) && forall x :: x in a + b ==> x !in c + d
    ensures Distinct((a + c) + (b + d))
  {
    DistinctJoin(a, b);
    DistinctJoin(c, d);
    DistinctJoin(a, c);
    DistinctJoin(b, d);
    DistinctJoin(a + c, b + d);
    assert forall x :: x in a || x in b ==> x in a + b && x !in c && x !in d by {
      assert forall x :: x in c || x in d ==> x in c + d;
    }
  }

  lemma {:induction false} ClassNoLonger(ids: seq<Id>, edges: set<Edge>, x: Id)
    ensures |ClassOf(ids, edges, x)| <= |ids|
  {
    if ids != [] {
      ClassNoLonger(ids[..|ids| - 1], edges, x);
    }
  }

  lemma LoneHasNoClass(ids: seq<Id>, edges: set<Edge>, exact: seq<seq<Id>>)
    requires |ids| < 2
    ensures Sorted(ids, edges, exact, [], [])
  {
    forall x { ClassNoLonger(ids, edges, x); }
  }

  /** _semantic_groups: among the memories of each identity, every cluster that is not an exact group, once,
      by size; none crosses an identity, and no memory is in two. */
  method SemanticGroups(rows: seq<Row>, score: (Id, Id) -> real, threshold: real, exact: seq<seq<Id>>, block: nat)
    returns (clusters: seq<seq<Id>>, oversized: seq<seq<Id>>)
    requires block > 0
    ensures Collected(rows, score, threshold, exact, Identities(rows), clusters, oversized)
    ensures Distinct(Ids(rows)) ==> Distinct(clusters + oversized)
    ensures Distinct(Ids(rows)) ==>
              forall c, d, x :: c in clusters + oversized && d in clusters + oversized && x in c && x in d ==> c == d
    ensures forall c, g :: c in clusters + oversized && g in exact ==> (set x | x in c) != (set x | x in g)
    ensures (forall c :: c in clusters ==> 2 <= |c| <= 6) && (forall c :: c in oversized ==> |c| > 6)
  {
    hide IsClass, Owned, EdgesOf, Select, IsCluster, Sorted;
    var order, grouped := GroupBy(Ids(rows), Identities(rows));
    clusters, oversized := [], [];
    for i := 0 to |order|
      invariant Collected(rows, score, threshold, exact, order[..i], clusters, oversized)
      invariant Distinct(Ids(rows)) ==> Distinct(clusters + oversized)
    {
      assert order[..i + 1] == order[..i] + [order[i]];
      var ids := grouped[order[i]];
      var more, larger := [], [];
      if |ids| < 2 {
        LoneHasNoClass(ids, EdgesOf(ids, score, threshold), exact);
      } else {
        more, larger := ClustersOf(ids, score, threshold, exact, block);
      }
      assert order[i] !in order[..i];
      if Distinct(Ids(rows)) {
        CollectDistinct(rows, score, threshold, exact, order[..i], order[i], clusters, oversized, more, larger);
      }
      CollectMore(rows, score, threshold, exact, order[..i], order[i], clusters, oversized, more, larger);
      assert clusters + [] == clusters && oversized + [] == oversized;
      clusters, oversized := clusters + more, oversized + larger;
    }
    assert order[..|order|] == order;
    CollectedDisjoint(rows, score, threshold, exact, order, clusters, oversized);
    CollectedNotExact(rows, score, threshold, exact, order, clusters, oversized);
  }

  /** What is collected is no exact group, and sorted by size. */
  lemma CollectedNotExact(rows: seq<Row>, score: (Id, Id) -> real, threshold: real, exact: seq<seq<Id>>, keys: seq<nat>,
                          clusters: seq<seq<Id>>, oversized: seq<seq<Id>>)
    requires Collected(rows, score, threshold, exact, keys, clusters, oversized)
    ensures forall c, g :: c in clusters + oversized && g in exact ==> (set x | x in c) != (set x | x in g)
    ensures (forall c :: c in clusters ==> 2 <= |c| <= 6) && (forall c :: c in oversized ==> |c| > 6)
  {
    hide *;
    forall c, g | c in clusters + oversized && g in exact
      ensures (set x | x in c) != (set x | x in g)
    {
      CollectedMember(rows, score, threshold, exact, keys, clusters, oversized, c);
      NotOwnedDiffers(exact, c, g);
    }
    forall c | c in clusters
      ensures 2 <= |c| <= 6
    {
      CollectedMember(rows, score, threshold, exact, keys, clusters, oversized, c);
    }
    forall c | c in oversized
      ensures |c| > 6
    {
      CollectedMember(rows, score, threshold, exact, keys, clusters, oversized, c);
    }
  }

  lemma NotOwnedDiffers(exact: seq<seq<Id>>, c: seq<Id>, g: seq<Id>)
    requires !Owned(exact, c) && g in exact
    ensures (set x | x in c) != (set x | x in g)
  {
    assert !SameMembers(c, g);
    var cs, gs := set x | x in c, set x | x in g;
    if x :| x in c && x !in g {
      assert x in cs && x !in gs;
    } else {
      var x :| x in g && x !in c;
      assert x in gs && x !in cs;
    }
  }

  lemma CollectedMember(rows: seq<Row>, score: (Id, Id) -> real, threshold: real, exact: seq<seq<Id>>, keys: seq<nat>,
                        clusters: seq<seq<Id>>, oversized: seq<seq<Id>>, c: seq<Id>)
    requires Collected(rows, score, threshold, exact, keys, clusters, oversized) && (c in clusters || c in oversized)
    ensures !Owned(exact, c) && |c| > 1 && (c in clusters ==> |c| <= 6) && (c in oversized ==> |c| > 6)
  {
    hide Owned, IsCluster;
    assert ClusterIn(rows, score, threshold, keys, c);
    var k :| k in keys && IsCluster(rows, score, threshold, k, c);
    ClusterSize(rows, score, threshold, k, c);
  }

  lemma ClusterSize(rows: seq<Row>, score: (Id, Id) -> real, threshold: real, identity: nat, c: seq<Id>)
    requires IsCluster(rows, score, threshold, identity, c)
    ensures |c| > 1
  {
    hide Select, EdgesOf, ClassOf, Identities, Ids;
  }

  lemma CollectedDisjoint(rows: seq<Row>, score: (Id, Id) -> real, threshold: real, exact: seq<seq<Id>>, keys: seq<nat>,
                          clusters: seq<seq<Id>>, oversized: seq<seq<Id>>)
    requires Collected(rows, score, threshold, exact, keys, clusters, oversized)
    ensures Distinct(Ids(rows)) ==>
              forall c, d, x :: c in clusters + oversized && d in clusters + oversized && x in c && x in d ==> c == d
  {
    hide Owned, IsCluster;
    forall c, d, x | Distinct(Ids(rows)) && c in clusters + oversized && d in clusters + oversized && x in c && x in d
      ensures c == d
    {
      assert ClusterIn(rows, score, threshold, keys, c) && ClusterIn(rows, score, threshold, keys, d);
      var j :| IsCluster(rows, score, threshold, j, c);
      var k :| IsCluster(rows, score, threshold, k, d);
      ClustersDisjoint(rows, score, threshold, j, k, c, d, x);
    }
  }
}
