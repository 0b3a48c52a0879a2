/** The union-find inside `ClusterRunner._compute_closure`: a parent map, path halving, root-to-root linking. */
module UnionFind {
  import opened Connectivity

  /** `x` hangs below another element of its own tree and strictly above it in height, or is its own root. */
  ghost predicate Linked(parent: map<int, int>, root: map<int, int>, height: map<int, nat>, x: int)
    requires parent.Keys == root.Keys == height.Keys && x in parent
  {
    && parent[x] in parent
    && root[x] in root
    && root[parent[x]] == root[x]
    && (parent[x] == x <==> root[x] == x)
    && (parent[x] != x ==> height[parent[x]] < height[x])
    && root[root[x]] == root[x]
  }

  /** The parent map is an acyclic forest whose trees have the given roots. */
  ghost predicate Forest(parent: map<int, int>, root: map<int, int>, height: map<int, nat>) {
    && parent.Keys == root.Keys == height.Keys
    && forall x {:trigger Linked(parent, root, height, x)} :: x in parent ==> Linked(parent, root, height, x)
  }

  /** Climbing `n` parent links from `x`. */
  function Climb(parent: map<int, int>, x: int, n: nat): int
    decreases n
  {
    if n == 0 || x !in parent then x else Climb(parent, parent[x], n - 1)
  }

  /** In a forest every climb of at least `height[x]` links has arrived at the root, and stays there. */
  lemma {:induction false} ClimbsToRoot(
    parent: map<int, int>, root: map<int, int>, height: map<int, nat>, x: int, n: nat)
    requires Forest(parent, root, height) && x in parent && height[x] <= n
    ensures Climb(parent, x, n) == root[x] && root[x] in parent && parent[root[x]] == root[x]
    decreases n
  {
    assert Linked(parent, root, height, x);
    assert Linked(parent, root, height, root[x]);
    if n > 0 {
      assert Linked(parent, root, height, parent[x]);
      if parent[x] == x {
        ClimbStays(parent, x, n);
      } else {
        ClimbsToRoot(parent, root, height, parent[x], n - 1);
      }
    }
  }

  lemma {:induction false} ClimbStays(parent: map<int, int>, x: int, n: nat)
    requires x in parent && parent[x] == x
    ensures Climb(parent, x, n) == x
  {
    if n > 0 { ClimbStays(parent, x, n - 1); }
  }

  lemma HalvingKeepsForest(parent: map<int, int>, root: map<int, int>, height: map<int, nat>, x: int)
    requires Forest(parent, root, height) && x in parent && parent[x] != x && parent[x] in parent
    ensures Forest(parent[x := parent[parent[x]]], root, height)
    ensures parent[parent[x]] in root && root[parent[parent[x]]] == root[x]
    ensures height[parent[parent[x]]] < height[x]
  {
    var halved := parent[x := parent[parent[x]]];
    assert Linked(parent, root, height, x);
    assert Linked(parent, root, height, parent[x]);
    forall v | v in halved
      ensures Linked(halved, root, height, v)
    {
      assert Linked(parent, root, height, v);
    }
  }

  lemma LinkingKeepsForest(parent: map<int, int>, root: map<int, int>, height: map<int, nat>, rx: int, ry: int,
                           root': map<int, int>, height': map<int, nat>)
    requires Forest(parent, root, height) && rx in parent && ry in parent
    requires root[rx] == rx && root[ry] == ry && rx != ry
    requires root'.Keys == root.Keys && height'.Keys == height.Keys
    requires forall v :: v in root ==> root'[v] == if root[v] == rx then ry else root[v]
    requires forall v :: v in height ==> height'[v] == if root[v] == rx then height[v] + height[ry] + 1 else height[v]
    ensures Forest(parent[rx := ry], root', height')
  {
    var linked := parent[rx := ry];
    assert Linked(parent, root, height, rx) && Linked(parent, root, height, ry);
    forall v | v in linked
      ensures Linked(linked, root', height', v)
    {
      assert Linked(parent, root, height, v);
      if v != rx { assert Linked(parent, root, height, parent[v]); }
    }
  }

  class DisjointSets {
    var parent: map<int, int>

    // The root of every element's tree, and a height that falls along every parent link.
    ghost var root: map<int, int>
    ghost var height: map<int, nat>

    ghost predicate Valid()
      reads this
    {
      Forest(parent, root, height)
    }

    constructor (ids: set<int>)
      ensures Valid() && parent.Keys == ids && forall x :: x in ids ==> root[x] == x
    {
      parent := map x | x in ids :: x;
      root := map x | x in ids :: x;
      height := map x | x in ids :: 0;
    }

    /** Walk to the root, pointing every visited element at its grandparent; no tree changes its root. */
    method Find(x0: int) returns (x: int)
      requires Valid() && x0 in parent
      modifies this`parent
      ensures Valid() && parent.Keys == old(parent).Keys
      ensures x == root[x0] && x in root && root[x] == x
    {
      x := x0;
      assert Linked(parent, root, height, x);
      while parent[x] != x
        invariant Valid() && parent.Keys == old(parent).Keys
        invariant x in parent && root[x] == root[x0]
        invariant Linked(parent, root, height, x)
        decreases height[x]
      {
        assert Linked(parent, root, height, parent[x]);
        HalvingKeepsForest(parent, root, height, x);
        parent := parent[x := parent[parent[x]]];
        x := parent[x];
        assert Linked(parent, root, height, x);
      }
    }

    /** Hang the root of `x` under the root of `y`; exactly the two trees become one. */
    method Union(x: int, y: int)
      requires Valid() && x in parent && y in parent
      modifies this
      ensures Valid() && parent.Keys == old(parent).Keys
      ensures forall v :: v in root ==> root[v] == if old(root)[v] == old(root)[x] then old(root)[y] else old(root)[v]
    {
      var rx := Find(x);
      var ry := Find(y);
      if rx != ry {
        Link(rx, ry);
      }
    }

    /** Hang one root under another. */
    method Link(rx: int, ry: int)
      requires Valid() && rx in root && ry in root && root[rx] == rx && root[ry] == ry && rx != ry
      modifies this
      ensures Valid() && parent.Keys == old(parent).Keys
      ensures root.Keys == old(root).Keys && forall v :: v in root ==>
        root[v] == if old(root)[v] == rx then ry else old(root)[v]
    {
      hide Linked;
      ghost var root' := map v | v in root :: if root[v] == rx then ry else root[v];
      ghost var height' := map v | v in height :: if root[v] == rx then height[v] + height[ry] + 1 else height[v];
      LinkingKeepsForest(parent, root, height, rx, ry, root', height');
      parent := parent[rx := ry];
      root, height := root', height';
    }
  }

  /** The merge edges whose ends are both among the devices at hand. */
  function InnerEdges(ids: set<int>, edges: seq<(int, int)>): Edges {
    set e | e in edges && e.0 in ids && e.1 in ids
  }

  /** Equal roots mean connected, and conversely. */
  ghost predicate RootsAreComponents(root: map<int, int>, es: Edges) {
    forall x, y :: x in root && y in root ==> (root[x] == root[y] <==> Connected(es, x, y))
  }

  ghost predicate Idempotent(root: map<int, int>) {
    forall x :: x in root ==> root[x] in root && root[root[x]] == root[x]
  }

  /** Two trees joined by an edge: the labels stay equal exactly on connected pairs. */
  lemma JoinKeepsComponents(root: map<int, int>, es: Edges, a: int, b: int, root': map<int, int>)
    requires RootsAreComponents(root, es)
    requires a in root && b in root && root'.Keys == root.Keys
    requires forall u, v :: (u, v) in es ==> u in root && v in root
    requires forall v :: v in root ==> root'[v] == if root[v] == root[a] then root[b] else root[v]
    ensures RootsAreComponents(root', es + {(a, b)})
  {
    var fs := es + {(a, b)};
    var mark := (x: int) => if x in root' then (true, root'[x]) else (false, x);
    forall u, v | (u, v) in fs
      ensures mark(u) == mark(v)
    {
      if (u, v) in es {
        AdjacentConnected(es, u, v);
      }
    }
    forall x, y | x in root && y in root
      ensures root'[x] == root'[y] <==> Connected(fs, x, y)
    {
      if Connected(fs, x, y) {
        LabelRespectsConnectivity(fs, mark, x, y);
      }
      if root'[x] == root'[y] {
        JoinedAreConnected(root, es, a, b, x, y);
      }
    }
  }

  lemma JoinedAreConnected(root: map<int, int>, es: Edges, a: int, b: int, x: int, y: int)
    requires RootsAreComponents(root, es)
    requires a in root && b in root && x in root && y in root
    requires (if root[x] == root[a] then root[b] else root[x]) == (if root[y] == root[a] then root[b] else root[y])
    ensures Connected(es + {(a, b)}, x, y)
  {
    var fs := es + {(a, b)};
    AdjacentConnected(fs, a, b);
    AdjacentConnected(fs, b, a);
    if root[x] == root[y] {
      Monotone(es, fs, x, y);
    } else if root[x] == root[a] {
      assert Connected(es, x, a) && Connected(es, b, y);
      Monotone(es, fs, x, a);
      Monotone(es, fs, b, y);
      Transitive(fs, x, a, b);
      Transitive(fs, x, b, y);
    } else {
      assert Connected(es, x, b) && Connected(es, a, y);
      Monotone(es, fs, x, b);
      Monotone(es, fs, a, y);
      Transitive(fs, x, b, a);
      Transitive(fs, x, a, y);
    }
  }

  lemma NoEdgesNoPaths(ids: set<int>, root: map<int, int>)
    requires root.Keys == ids && forall x :: x in ids ==> root[x] == x
    ensures RootsAreComponents(root, {})
  {
    forall x, y | x in root && y in root
      ensures root[x] == root[y] <==> Connected({}, x, y)
    {
      Reflexive({}, x);
      if Connected({}, x, y) {
        LabelRespectsConnectivity({}, d => d, x, y);
      }
    }
  }

  /** Feed every usable edge to `Union`: afterwards two ids have the same root exactly when merge edges connect them. */
  method Close(ids: set<int>, edges: seq<(int, int)>) returns (sets: DisjointSets)
    ensures fresh(sets) && sets.Valid() && sets.parent.Keys == ids
    ensures RootsAreComponents(sets.root, InnerEdges(ids, edges)) && Idempotent(sets.root)
  {
    sets := new DisjointSets(ids);
    NoEdgesNoPaths(ids, sets.root);
    assert InnerEdges(ids, edges[..0]) == {};
    for i := 0 to |edges|
      invariant sets.Valid() && sets.parent.Keys == ids
      invariant RootsAreComponents(sets.root, InnerEdges(ids, edges[..i]))
      invariant fresh(sets)
    {
      var (a, b) := edges[i];
      assert edges[..i + 1] == edges[..i] + [edges[i]];
      if a in sets.parent && b in sets.parent {
        ghost var before := sets.root;
        sets.Union(a, b);
        JoinKeepsComponents(before, InnerEdges(ids, edges[..i]), a, b, sets.root);
        assert InnerEdges(ids, edges[..i + 1]) == InnerEdges(ids, edges[..i]) + {(a, b)};
      } else {
        assert InnerEdges(ids, edges[..i + 1]) == InnerEdges(ids, edges[..i]);
      }
    }
    assert edges[..|edges|] == edges;
    forall x | x in sets.root
      ensures sets.root[x] in sets.root && sets.root[sets.root[x]] == sets.root[x]
    {
      assert Linked(sets.parent, sets.root, sets.height, x);
    }
  }
}
