/** `ClusterRunner.run_once`: class caps, same-class candidate pairs, one verdict per pair, and the closure counts. */
module ClusterRunner {
  import opened Connectivity
  import opened UnionFind

  datatype Device = Device(id: int, cls: string)

  datatype Verdict = Merge | NoMerge | Abstain

  datatype RunResult = RunResult(
    pairsEvaluated: nat,
    merges: seq<(int, int)>,
    abstains: nat,
    noMerges: nat,
    skipped: seq<string>,
    clusterCount: nat,
    clustersByClass: map<string, nat>)

  // ------------------------------------------------------------- specification

  /** `id` is the primary key of the device table. */
  ghost predicate KeyedById(devices: seq<Device>) {
    forall i, j :: 0 <= i < j < |devices| ==> devices[i].id != devices[j].id
  }

  function ClassSize(devices: seq<Device>, cls: string): nat {
    if devices == [] then 0
    else ClassSize(devices[..|devices| - 1], cls) + if devices[|devices| - 1].cls == cls then 1 else 0
  }

  predicate IsCandidate(devices: seq<Device>, cap: nat, i: int, j: int) {
    && 0 <= i < j < |devices|
    && devices[i].cls == devices[j].cls
    && ClassSize(devices, devices[i].cls) <= cap
  }

  /** Positions (i, j) of the pairs a run looks at: each same-class pair of a class within the cap, once. */
  function Candidates(devices: seq<Device>, cap: nat): set<(int, int)> {
    set i, j | 0 <= i < |devices| && 0 <= j < |devices| && IsCandidate(devices, cap, i, j) :: (i, j)
  }

  function Ids(devices: seq<Device>): set<int> {
    set d | d in devices :: d.id
  }

  /** The merge graph of a run: a fact about the devices and the scorer alone. */
  function MergeGraph(devices: seq<Device>, cap: nat, judge: (Device, Device) -> Verdict): Edges {
    set c | c in Candidates(devices, cap) && MergesAt(devices, judge, c) :: (devices[c.0].id, devices[c.1].id)
  }

  /** The devices at positions `c` exist and are judged the same. */
  predicate MergesAt(devices: seq<Device>, judge: (Device, Device) -> Verdict, c: (int, int)) {
    0 <= c.0 < |devices| && 0 <= c.1 < |devices| && judge(devices[c.0], devices[c.1]).Merge?
  }

  ghost function Component(ids: set<int>, es: Edges, x: int): set<int> {
    set y | y in ids && Connected(es, x, y)
  }

  ghost function Components(ids: set<int>, es: Edges): set<set<int>> {
    set x | x in ids :: Component(ids, es, x)
  }

  ghost function ComponentsOfClass(devices: seq<Device>, es: Edges, cls: string): set<set<int>> {
    set d | d in devices && d.cls == cls :: Component(Ids(devices), es, d.id)
  }

  function CountOf(m: map<string, nat>, cls: string): nat {
    if cls in m then m[cls] else 0
  }

  // -------------------------------------------------------------- cardinality

  /** `image` holds exactly the values of `f` on `s`, no value twice. */
  ghost predicate OneToOne<A, B>(s: set<A>, f: A -> B, image: set<B>) {
    && (forall x :: x in s ==> f(x) in image)
    && (forall x, y :: x in s && y in s && f(x) == f(y) ==> x == y)
    && (forall b :: b in image ==> exists x :: x in s && f(x) == b)
  }

  lemma {:induction false} ImageSize<A, B>(s: set<A>, f: A -> B, image: set<B>)
    requires OneToOne(s, f, image)
    ensures |image| == |s|
    decreases |s|
  {
    if s == {} {
      assert image == {};
    } else {
      var a :| a in s;
      ImageSize(s - {a}, f, image - {f(a)});
    }
  }

  /** One representative per component. */
  lemma RepresentativesCount(ids: set<int>, es: Edges, root: map<int, int>, reps: set<int>, all: set<set<int>>)
    requires root.Keys == ids && RootsAreComponents(root, es)
    requires forall r :: r in reps ==> r in ids && root[r] == r
    requires forall r :: r in reps ==> Component(ids, es, r) in all
    requires forall c :: c in all ==> exists r :: r in reps && Component(ids, es, r) == c
    ensures |all| == |reps|
  {
    var f := x => Component(ids, es, x);
    forall x, y | x in reps && y in reps && f(x) == f(y)
      ensures x == y
    {
      Reflexive(es, x);
      assert x in f(x);
      Symmetric(es, y, x);
    }
    forall c | c in all
      ensures exists r :: r in reps && f(r) == c
    {
      var r :| r in reps && Component(ids, es, r) == c;
      assert f(r) == c;
    }
    ImageSize(reps, f, all);
  }

  lemma SameComponent(ids: set<int>, es: Edges, x: int, y: int)
    requires Connected(es, x, y)
    ensures Component(ids, es, x) == Component(ids, es, y)
  {
    Symmetric(es, x, y);
    forall z | z in ids
      ensures Connected(es, x, z) <==> Connected(es, y, z)
    {
      if Connected(es, x, z) { Transitive(es, y, x, z); }
      if Connected(es, y, z) { Transitive(es, x, y, z); }
    }
  }

  // ------------------------------------------------------------------ closure

  ghost predicate WithinClass(devices: seq<Device>, es: Edges) {
    forall d, e :: d in devices && e in devices && (d.id, e.id) in es ==> d.cls == e.cls
  }

  /** Merge edges that stay within classes make every component one class. */
  lemma ComponentIsOneClass(devices: seq<Device>, es: Edges, d: Device, e: Device)
    requires KeyedById(devices) && WithinClass(devices, es)
    requires forall u, v :: (u, v) in es ==> u in Ids(devices) && v in Ids(devices)
    requires d in devices && e in devices && Connected(es, d.id, e.id)
    ensures d.cls == e.cls
  {
    var classOf := (x: int) => if exists f :: f in devices && f.id == x then ClassById(devices, x) else "";
    forall u, v | (u, v) in es
      ensures classOf(u) == classOf(v)
    {
      var a :| a in devices && a.id == u;
      var b :| b in devices && b.id == v;
      ClassByIdIs(devices, a);
      ClassByIdIs(devices, b);
    }
    LabelRespectsConnectivity(es, classOf, d.id, e.id);
    ClassByIdIs(devices, d);
    ClassByIdIs(devices, e);
  }

  function ClassById(devices: seq<Device>, x: int): string {
    if devices == [] then "" else if devices[0].id == x then devices[0].cls else ClassById(devices[1..], x)
  }

  lemma {:induction false} ClassByIdIs(devices: seq<Device>, d: Device)
    requires KeyedById(devices) && d in devices
    ensures ClassById(devices, d.id) == d.cls
  {
    if devices[0] != d {
      assert d in devices[1..];
      ClassByIdIs(devices[1..], d);
    }
  }

  /** One class label per root, the last device of the tree winning. */
  method LabelRoots(devices: seq<Device>, sets: DisjointSets) returns (classes: map<int, string>)
    requires sets.Valid() && sets.parent.Keys == Ids(devices)
    modifies sets`parent
    ensures sets.Valid() && sets.parent.Keys == Ids(devices)
    ensures classes.Keys == set d | d in devices :: sets.root[d.id]
    ensures forall r :: r in classes ==> exists d :: d in devices && sets.root[d.id] == r && d.cls == classes[r]
  {
    classes := map[];
    for i := 0 to |devices|
      invariant sets.Valid() && sets.parent.Keys == Ids(devices)
      invariant classes.Keys == set d | d in devices[..i] :: sets.root[d.id]
      invariant forall r :: r in classes ==> exists d :: d in devices && sets.root[d.id] == r && d.cls == classes[r]
    {
      assert devices[..i + 1] == devices[..i] + [devices[i]];
      assert devices[i] in devices;
      var r := sets.Find(devices[i].id);
      classes := classes[r := devices[i].cls];
    }
    assert devices[..|devices|] == devices;
  }

  /** The keys among `within` that are labelled `cls`. */
  function Labelled(classes: map<int, string>, within: set<int>, cls: string): set<int> {
    set r | r in within && r in classes && classes[r] == cls
  }

  ghost predicate Counted(counts: map<string, nat>, classes: map<int, string>, done: set<int>) {
    forall cls :: CountOf(counts, cls) == |Labelled(classes, done, cls)|
  }

  lemma LabelledGrows(classes: map<int, string>, done: set<int>, r: int, cls: string)
    requires r in classes && r !in done
    ensures |Labelled(classes, done + {r}, cls)| == |Labelled(classes, done, cls)| + if cls == classes[r] then 1 else 0
  {
    if cls == classes[r] {
      assert Labelled(classes, done + {r}, cls) == Labelled(classes, done, cls) + {r};
    } else {
      assert Labelled(classes, done + {r}, cls) == Labelled(classes, done, cls);
    }
  }

  lemma CountOneMore(counts: map<string, nat>, classes: map<int, string>, done: set<int>, r: int)
    requires Counted(counts, classes, done) && r in classes && r !in done
    ensures Counted(counts[classes[r] := CountOf(counts, classes[r]) + 1], classes, done + {r})
  {
    forall cls: string
      ensures |Labelled(classes, done + {r}, cls)|
        == |Labelled(classes, done, cls)| + if cls == classes[r] then 1 else 0
    {
      LabelledGrows(classes, done, r, cls);
    }
  }

  /** `Counter(values)`. */
  method CountValues(classes: map<int, string>) returns (counts: map<string, nat>)
    ensures forall cls :: CountOf(counts, cls) == |Labelled(classes, classes.Keys, cls)|
  {
    counts := map[];
    var done: set<int> := {};
    var todo := classes.Items;
    while todo != {}
      invariant todo <= classes.Items
      invariant forall r :: r in done <==> r in classes && (r, classes[r]) !in todo
      invariant Counted(counts, classes, done)
      decreases todo
    {
      var item :| item in todo;
      assert item == (item.0, item.1);
      CountOneMore(counts, classes, done, item.0);
      counts := counts[item.1 := CountOf(counts, item.1) + 1];
      done := done + {item.0};
      todo := todo - {item};
    }
    forall r: int
      ensures r in done <==> r in classes.Keys
    {
      if r in classes { assert (r, classes[r]) !in todo; }
    }
    assert done == classes.Keys;
  }

  /** The counts reported after a run are counts of connected components, in total and per class. */
  method ComputeClosure(devices: seq<Device>, merges: seq<(int, int)>)
    returns (count: nat, byClass: map<string, nat>)
    requires KeyedById(devices)
    ensures count == |Components(Ids(devices), InnerEdges(Ids(devices), merges))|
    ensures WithinClass(devices, InnerEdges(Ids(devices), merges)) ==>
      forall cls :: CountOf(byClass, cls) == |ComponentsOfClass(devices, InnerEdges(Ids(devices), merges), cls)|
  {
    var ids := Ids(devices);
    var sets := Close(ids, merges);
    ghost var es := InnerEdges(ids, merges);
    var classes := LabelRoots(devices, sets);
    count := |classes|;
    byClass := CountValues(classes);
    ghost var root := sets.root;
    assert forall d :: d in devices ==> d.id in ids;
    RootsRepresent(devices, es, root);
    RepresentativesCount(ids, es, root, classes.Keys, Components(ids, es));
    assert |classes| == |classes.Keys|;
    if WithinClass(devices, es) {
      forall cls
        ensures CountOf(byClass, cls) == |ComponentsOfClass(devices, es, cls)|
      {
        ClassRepresentatives(devices, es, root, classes, cls);
      }
    }
  }

  lemma RootsRepresent(devices: seq<Device>, es: Edges, root: map<int, int>)
    requires root.Keys == Ids(devices) && RootsAreComponents(root, es) && Idempotent(root)
    ensures var reps := set d | d in devices :: root[d.id];
      (forall r :: r in reps ==> r in Ids(devices) && root[r] == r)
      && (forall r :: r in reps ==> Component(Ids(devices), es, r) in Components(Ids(devices), es))
      && (forall c :: c in Components(Ids(devices), es) ==>
        exists r :: r in reps && Component(Ids(devices), es, r) == c)
  {
    var ids := Ids(devices);
    var reps := set d | d in devices :: root[d.id];
    forall x | x in ids
      ensures Component(ids, es, x) == Component(ids, es, root[x]) && root[x] in reps
    {
      var d :| d in devices && d.id == x;
      SameComponent(ids, es, x, root[x]);
    }
  }

  /** Under a uniform class, every device's root carries that device's class. */
  lemma RootClass(devices: seq<Device>, es: Edges, root: map<int, int>, classes: map<int, string>, d: Device)
    requires KeyedById(devices) && WithinClass(devices, es)
    requires forall u, v :: (u, v) in es ==> u in Ids(devices) && v in Ids(devices)
    requires root.Keys == Ids(devices) && RootsAreComponents(root, es) && Idempotent(root)
    requires classes.Keys == set d | d in devices :: root[d.id]
    requires forall r :: r in classes ==> exists d :: d in devices && root[d.id] == r && d.cls == classes[r]
    requires d in devices
    ensures root[d.id] in classes && classes[root[d.id]] == d.cls
    ensures Component(Ids(devices), es, d.id) == Component(Ids(devices), es, root[d.id])
  {
    var r := root[d.id];
    var e :| e in devices && root[e.id] == r && e.cls == classes[r];
    ComponentIsOneClass(devices, es, d, e);
    SameComponent(Ids(devices), es, d.id, r);
  }

  lemma ClassRepresentatives(
    devices: seq<Device>, es: Edges, root: map<int, int>, classes: map<int, string>, cls: string)
    requires KeyedById(devices) && WithinClass(devices, es)
    requires forall u, v :: (u, v) in es ==> u in Ids(devices) && v in Ids(devices)
    requires root.Keys == Ids(devices) && RootsAreComponents(root, es) && Idempotent(root)
    requires classes.Keys == set d | d in devices :: root[d.id]
    requires forall r :: r in classes ==> exists d :: d in devices && root[d.id] == r && d.cls == classes[r]
    ensures |Labelled(classes, classes.Keys, cls)| == |ComponentsOfClass(devices, es, cls)|
  {
    var ids, reps, all := Ids(devices), Labelled(classes, classes.Keys, cls), ComponentsOfClass(devices, es, cls);
    forall c | c in all
      ensures exists r :: r in reps && Component(ids, es, r) == c
    {
      var d :| d in devices && d.cls == cls && c == Component(ids, es, d.id);
      RootClass(devices, es, root, classes, d);
      assert root[d.id] in reps;
    }
    forall r | r in reps
      ensures Component(ids, es, r) in all
    {
      var d :| d in devices && root[d.id] == r && d.cls == classes[r];
      RootClass(devices, es, root, classes, d);
    }
    RepresentativesCount(ids, es, root, reps, all);
  }
}
