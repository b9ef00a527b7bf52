/** Connected components by union-find with path halving (consolidate.py). */
module Components {
  import opened Grouping

  type Id = string
  type Edge = (Id, Id)

  // ---- what a component is ----

  predicate Joined(edges: set<Edge>, a: Id, b: Id) {
    (a, b) in edges || (b, a) in edges
  }

  /** A walk along edges in either direction. */
  predicate Walk(edges: set<Edge>, p: seq<Id>) {
    p != [] && forall i :: 0 <= i < |p| - 1 ==> Joined(edges, p[i], p[i + 1])
  }

  ghost predicate Connected(edges: set<Edge>, a: Id, b: Id) {
    exists p :: Walk(edges, p) && p[0] == a && p[|p| - 1] == b
  }

  lemma ConnectedSelf(edges: set<Edge>, a: Id)
    ensures Connected(edges, a, a)
  {
    assert Walk(edges, [a]);
  }

  lemma ConnectedEdge(edges: set<Edge>, a: Id, b: Id)
    requires Joined(edges, a, b)
    ensures Connected(edges, a, b)
  {
    assert Walk(edges, [a, b]) && [a, b][|[a, b]| - 1] == b;
  }

  lemma ConnectedThrough(edges: set<Edge>, a: Id, b: Id, c: Id)
    requires Connected(edges, a, b) && Connected(edges, b, c)
    ensures Connected(edges, a, c)
  {
    var p :| Walk(edges, p) && p[0] == a && p[|p| - 1] == b;
    var q :| Walk(edges, q) && q[0] == b && q[|q| - 1] == c;
    var r := p + q[1..];
    forall i | 0 <= i < |r| - 1
      ensures Joined(edges, r[i], r[i + 1])
    {
      if i >= |p| - 1 {
        assert r[i] == q[i - (|p| - 1)] && r[i + 1] == q[i - (|p| - 1) + 1];
      }
    }
    assert Walk(edges, r) && r[0] == a && r[|r| - 1] == c;
  }

  function Reversed(p: seq<Id>): (r: seq<Id>)
    ensures |r| == |p| && forall i :: 0 <= i < |p| ==> r[i] == p[|p| - 1 - i]
  {
    if p == [] then [] else Reversed(p[1..]) + [p[0]]
  }

  lemma ConnectedBack(edges: set<Edge>, a: Id, b: Id)
    requires Connected(edges, a, b)
    ensures Connected(edges, b, a)
  {
    var p :| Walk(edges, p) && p[0] == a && p[|p| - 1] == b;
    var r := Reversed(p);
    forall i | 0 <= i < |r| - 1
      ensures Joined(edges, r[i], r[i + 1])
    {
      assert Joined(edges, p[|p| - 1 - i - 1], p[|p| - 1 - i]);
    }
    assert Walk(edges, r) && r[0] == b && r[|r| - 1] == a;
  }

  lemma ConnectedMore(edges: set<Edge>, more: set<Edge>, a: Id, b: Id)
    requires Connected(edges, a, b) && edges <= more
    ensures Connected(more, a, b)
  {
    var p :| Walk(edges, p) && p[0] == a && p[|p| - 1] == b;
    assert Walk(more, p);
  }

  // ---- the forest ----

  /** One node: its root is reached through its parent, and depths fall along parents. */
  ghost predicate NodeOk(parent: map<Id, Id>, root: map<Id, Id>, depth: map<Id, nat>, x: Id)
    requires x in parent && root.Keys == parent.Keys && depth.Keys == parent.Keys
  {
    var p, r := parent[x], root[x];
    && p in parent && r in parent && root[r] == r && root[p] == r
    && (p == x <==> r == x)
    && (p != x ==> depth[p] < depth[x])
  }

  /** Every search for a root ends, at the root. */
  ghost predicate Forest(parent: map<Id, Id>, root: map<Id, Id>, depth: map<Id, nat>) {
    && root.Keys == parent.Keys && depth.Keys == parent.Keys
    && forall x {:trigger NodeOk(parent, root, depth, x)} :: x in parent ==> NodeOk(parent, root, depth, x)
  }

  /** The roots tell exactly which ids the edges join. */
  ghost predicate Represents(root: map<Id, Id>, edges: set<Edge>) {
    && (forall x :: x in root ==> Connected(edges, x, root[x]))
    && (forall a, b :: (a, b) in edges ==> a in root && b in root && root[a] == root[b])
  }

  lemma {:induction false} WalkSameRoot(root: map<Id, Id>, edges: set<Edge>, p: seq<Id>)
    requires Represents(root, edges) && Walk(edges, p) && p[0] in root
    ensures p[|p| - 1] in root && root[p[|p| - 1]] == root[p[0]]
    decreases |p|
  {
    if |p| > 1 {
      assert Joined(edges, p[0], p[1]);
      forall i | 0 <= i < |p[1..]| - 1 ensures Joined(edges, p[1..][i], p[1..][i + 1]) { assert Joined(edges, p[i + 1], p[i + 2]); }
      WalkSameRoot(root, edges, p[1..]);
    }
  }

  /** Two ids have one root exactly when the edges connect them. */
  lemma SameRootIffConnected(root: map<Id, Id>, edges: set<Edge>, a: Id, b: Id)
    requires Represents(root, edges) && a in root && b in root
    ensures root[a] == root[b] <==> Connected(edges, a, b)
  {
    if root[a] == root[b] {
      ConnectedBack(edges, b, root[b]);
      ConnectedThrough(edges, a, root[a], b);
    }
    if Connected(edges, a, b) {
      var p :| Walk(edges, p) && p[0] == a && p[|p| - 1] == b;
      WalkSameRoot(root, edges, p);
    }
  }

  ghost function Rerooted(root: map<Id, Id>, ra: Id, rb: Id): map<Id, Id> {
    map x | x in root :: if root[x] == ra then rb else root[x]
  }

  ghost function Deepened(root: map<Id, Id>, depth: map<Id, nat>, ra: Id, rb: Id): map<Id, nat>
    requires depth.Keys == root.Keys && rb in root
  {
    map x | x in root :: if root[x] == ra && ra != rb then depth[x] + depth[rb] + 1 else depth[x]
  }

  lemma LinkForest(parent: map<Id, Id>, root: map<Id, Id>, depth: map<Id, nat>, ra: Id, rb: Id)
    requires Forest(parent, root, depth) && ra in parent && rb in parent && root[ra] == ra && root[rb] == rb
    ensures Forest(parent[ra := rb], Rerooted(root, ra, rb), Deepened(root, depth, ra, rb))
  {
    var parent', root', depth' := parent[ra := rb], Rerooted(root, ra, rb), Deepened(root, depth, ra, rb);
    assert NodeOk(parent, root, depth, rb);
    forall x | x in parent'
      ensures NodeOk(parent', root', depth', x)
    {
      assert NodeOk(parent, root, depth, x);
      assert NodeOk(parent, root, depth, parent[x]);
    }
  }

  lemma HalveForest(parent: map<Id, Id>, root: map<Id, Id>, depth: map<Id, nat>, x: Id)
    requires Forest(parent, root, depth) && x in parent && parent[x] != x
    ensures parent[x] in parent && parent[parent[x]] in parent
    ensures Forest(parent[x := parent[parent[x]]], root, depth)
    ensures root[parent[parent[x]]] == root[x] && depth[parent[parent[x]]] < depth[x]
  {
    assert NodeOk(parent, root, depth, x);
    assert NodeOk(parent, root, depth, parent[x]);
    var g := parent[parent[x]];
    assert NodeOk(parent, root, depth, g);
    var parent' := parent[x := g];
    forall y | y in parent'
      ensures NodeOk(parent', root, depth, y)
    {
      assert NodeOk(parent, root, depth, y);
    }
  }

  lemma LinkRepresents(root: map<Id, Id>, edges: set<Edge>, a: Id, b: Id)
    requires Represents(root, edges) && a in root && b in root
    ensures Represents(Rerooted(root, root[a], root[b]), edges + {(a, b)})
  {
    var more := edges + {(a, b)};
    forall x | x in root
      ensures Connected(more, x, Rerooted(root, root[a], root[b])[x])
    {
      ConnectedMore(edges, more, x, root[x]);
      if root[x] == root[a] {
        ConnectedMore(edges, more, a, root[a]);
        ConnectedMore(edges, more, b, root[b]);
        ConnectedBack(more, a, root[a]);
        ConnectedEdge(more, a, b);
        ConnectedThrough(more, x, root[a], a);
        ConnectedThrough(more, x, a, b);
        ConnectedThrough(more, x, b, root[b]);
      }
    }
  }

  lemma RootItself(parent: map<Id, Id>, root: map<Id, Id>, depth: map<Id, nat>, x: Id)
    requires Forest(parent, root, depth) && x in parent && parent[x] == x
    ensures root[x] == x
  {
    assert NodeOk(parent, root, depth, x);
  }

  class UnionFind {
    var parent: map<Id, Id>
    ghost var root: map<Id, Id>
    ghost var depth: map<Id, nat>

    ghost predicate Valid()
      reads this
    {
      root.Keys == parent.Keys && Forest(parent, root, depth)
    }

    constructor (ids: seq<Id>)
      ensures Valid() && (forall x :: x in parent <==> x in ids) && Represents(root, {})
    {
      parent := map x | x in ids :: x;
      root := map x | x in ids :: x;
      depth := map x | x in ids :: 0;
      new;
      forall x | x in root ensures Connected({}, x, root[x]) { ConnectedSelf({}, x); }
    }

    /** Path halving: every other step of the way is cut, and no root changes. */
    method Find(x: Id) returns (r: Id)
      requires Valid() && x in parent
      modifies this`parent
      ensures Valid() && parent.Keys == old(parent.Keys) && r in parent && r == root[x] && root[r] == r
    {
      r := x;
      hide NodeOk;
      while parent[r] != r
        invariant Valid() && parent.Keys == old(parent.Keys) && r in parent && root[r] == root[x]
        decreases depth[r]
      {
        HalveForest(parent, root, depth, r);
        parent := parent[r := parent[parent[r]]];
        r := parent[r];
      }
      RootItself(parent, root, depth, r);
    }

    method Union(a: Id, b: Id)
      requires Valid() && a in parent && b in parent
      modifies this
      ensures Valid() && parent.Keys == old(parent.Keys)
      ensures root == Rerooted(old(root), old(root[a]), old(root[b]))
    {
      var rb := Find(b);
      var ra := Find(a);
      LinkForest(parent, root, depth, ra, rb);
      parent := parent[ra := rb];
      depth := Deepened(root, depth, ra, rb);
      root := Rerooted(root, ra, rb);
    }
  }
}
