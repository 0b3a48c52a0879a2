/** `Clusters.apply_run` as the repository runs it: table statements plus an in-memory map kept in step with them. */
module ClusterStore {
  import opened Wrappers
  import opened ClusterTable
  import ClusterRuns
  import ClusterRepeat

  datatype StoreError = ForeignKeyViolation

  /** The in-memory `device_to_cluster` says exactly what the member table says. */
  ghost predicate Coherent(index: map<int, int>, t: Tables) {
    && (forall d :: d in index ==> (index[d], d) in t.members)
    && (forall c, d :: (c, d) in t.members ==> d in index && index[d] == c)
  }

  lemma FoldNone(t: Tables, df: Lookup, now: real, source: string)
    requires Good(t)
    ensures Fold(t, [], df, now, source) == t && ClusterRepeat.InsertCount(t, [], df, now, source) == 0
  {
  }

  lemma FoldSnoc(t: Tables, pre: seq<Proposal>, p: Proposal, df: Lookup, now: real, source: string)
    requires Good(t) && AllKnown(t, pre) && Known(t, p)
    ensures AllKnown(t, pre + [p])
    ensures Fold(t, pre + [p], df, now, source) == Step(Fold(t, pre, df, now, source), p, df, now, source)
    ensures ClusterRepeat.InsertCount(t, pre + [p], df, now, source)
         == ClusterRepeat.InsertCount(t, pre, df, now, source)
            + if ClusterRepeat.Inserts(Fold(t, pre, df, now, source), p) then 1 else 0
  {
  }

  lemma AbsorbCoherent(t: Tables, keep: int, drop: int, now: real, index: map<int, int>, index': map<int, int>)
    requires Coherent(index, t) && keep != drop && keep in t.clusters
    requires index'.Keys == index.Keys
    requires forall d :: d in index ==> index'[d] == if index[d] == drop then keep else index[d]
    ensures Coherent(index', Absorb(t, keep, drop, now))
  {
  }

  /** What the index says of a device is what the member table says. */
  lemma IndexIsClusterOf(index: map<int, int>, t: Tables, d: int)
    requires Good(t) && Coherent(index, t)
    ensures ClusterOf(t, d) == if d in index then Some(index[d]) else None
    ensures d in index ==> index[d] in t.clusters && d in t.devices
  {
  }

  class Clusters {
    var db: Tables

    ghost predicate Valid()
      reads this
    {
      Good(db)
    }

    /** An empty schema over the given device rows. */
    constructor (devices: set<int>)
      ensures Valid() && db == Tables(devices, map[], map[], 1)
    {
      db := Tables(devices, map[], map[], 1);
    }

    /** Read the member rows, in whatever order they come, into the lookup map. */
    method LoadIndex() returns (index: map<int, int>)
      requires Valid()
      ensures Coherent(index, db)
    {
      index := map[];
      var rows := db.members.Keys;
      while rows != {}
        invariant rows <= db.members.Keys
        invariant forall d :: d in index ==> (index[d], d) in db.members && (index[d], d) !in rows
        invariant forall c, d :: (c, d) in db.members && (c, d) !in rows ==> d in index && index[d] == c
        decreases rows
      {
        var row :| row in rows;
        assert row == (row.0, row.1);
        index := index[row.1 := row.0];
        rows := rows - {row};
      }
    }

    /** One `INSERT OR IGNORE` into the member table; refused when the device row does not exist. */
    method AddMember(c: int, d: int, df: Lookup, now: real, source: string) returns (ok: bool)
      requires Valid() && c in db.clusters
      requires forall e :: (e, d) in db.members ==> e == c
      modifies this
      ensures ok == (d in old(db).devices)
      ensures db == if ok then Insert(old(db), c, d, EvidenceFor(df, d, now, source)) else old(db)
      ensures Valid()
    {
      var best: Option<Verdict> := None;
      var bestScore := SCORE_FLOOR;
      for i := 0 to |df|
        invariant best == Best(df[..i], d)
        invariant bestScore == if best.Some? then best.value.score else SCORE_FLOOR
      {
        assert df[..i + 1][..i] == df[..i];
        if Involves(df[i], d) && df[i].1.score > bestScore {
          bestScore := df[i].1.score;
          best := Some(df[i].1);
        }
      }
      assert df[..|df|] == df;
      ok := d in db.devices;
      if ok {
        db := Insert(db, c, d, Evidence(best, now, source));
      }
    }

    /** Point every entry of the index that names `drop` at `keep`. */
    method Relabel(index: map<int, int>, keep: int, drop: int) returns (r: map<int, int>)
      ensures r.Keys == index.Keys
      ensures forall d :: d in index ==> r[d] == if index[d] == drop then keep else index[d]
    {
      r := index;
      var todo := index.Items;
      while todo != {}
        invariant todo <= index.Items && r.Keys == index.Keys
        invariant forall d :: d in index ==>
          r[d] == if (d, index[d]) !in todo && index[d] == drop then keep else index[d]
        decreases todo
      {
        var item :| item in todo;
        assert item == (item.0, item.1);
        if item.1 == drop {
          r := r[item.0 := keep];
        }
        todo := todo - {item};
      }
    }

    /** Attach one more device to an existing cluster and stamp the cluster. */
    method Attach(c: int, d: int, df: Lookup, now: real, source: string, index: map<int, int>)
      returns (ok: bool, index': map<int, int>)
      requires Valid() && Coherent(index, db) && c in db.clusters && d !in index
      modifies this
      ensures ok == (d in old(db).devices)
      ensures ok ==> db == Touch(Insert(old(db), c, d, EvidenceFor(df, d, now, source)), c, now)
      ensures ok ==> Valid() && Coherent(index', db)
    {
      index' := index;
      ok := AddMember(c, d, df, now, source);
      if ok {
        db := Touch(db, c, now);
        index' := index[d := c];
      }
    }

    /** Move the members of the younger cluster into the older one and drop its row. */
    method Merge(keep: int, drop: int, now: real, index: map<int, int>) returns (index': map<int, int>)
      requires Valid() && Coherent(index, db) && keep != drop && keep in db.clusters
      modifies this
      ensures db == Absorb(old(db), keep, drop, now)
      ensures Valid() && Coherent(index', db)
    {
      hide Absorb, Good, Coherent;
      AbsorbGood(db, keep, drop, now);
      index' := Relabel(index, keep, drop);
      AbsorbCoherent(db, keep, drop, now, index, index');
      db := Absorb(db, keep, drop, now);
    }

    /** Open a confirmed cluster for two unattached devices. */
    method CreatePair(a: int, b: int, df: Lookup, now: real, source: string, index: map<int, int>)
      returns (ok: bool, index': map<int, int>)
      requires Valid() && Coherent(index, db) && a !in index && b !in index
      modifies this
      ensures ok == (a in old(db).devices && b in old(db).devices)
      ensures ok ==>
        db == Insert(Insert(Create(old(db), now, source), old(db).nextId, a, EvidenceFor(df, a, now, source)),
                     old(db).nextId, b, EvidenceFor(df, b, now, source))
      ensures ok ==> Valid() && Coherent(index', db)
    {
      index' := index;
      var c := db.nextId;
      db := Create(db, now, source);
      ok := AddMember(c, a, df, now, source);
      if ok {
        ok := AddMember(c, b, df, now, source);
        index' := index[a := c][b := c];
      }
    }

    /** One merge edge; false, with the tables left mid-way, when a device row is missing. */
    method ApplyEdge(p: Proposal, df: Lookup, now: real, source: string, index: map<int, int>)
      returns (ok: bool, index': map<int, int>, inserted: nat)
      requires Valid() && Coherent(index, db)
      modifies this
      ensures ok == Known(old(db), p)
      ensures ok ==> db == Step(old(db), p, df, now, source) && Valid() && Coherent(index', db)
      ensures ok ==> inserted == if ClusterRepeat.Inserts(old(db), p) then 1 else 0
    {
      hide Absorb, Create, Insert, EvidenceFor, ClusterOf;
      ok, index', inserted := true, index, 0;
      IndexIsClusterOf(index, db, p.a);
      IndexIsClusterOf(index, db, p.b);
      if p.a in index && p.b in index {
        var ca, cb := index[p.a], index[p.b];
        if ca == cb {
          db := Touch(db, ca, now);
        } else {
          var keep, drop := if ca < cb then ca else cb, if ca < cb then cb else ca;
          index' := Merge(keep, drop, now, index);
        }
      } else if p.a in index {
        ok, index' := Attach(index[p.a], p.b, df, now, source, index);
      } else if p.b in index {
        ok, index' := Attach(index[p.b], p.a, df, now, source, index);
      } else {
        ok, index' := CreatePair(p.a, p.b, df, now, source, index);
        inserted := 1;
      }
    }

    static method BuildLookup(ds: seq<Proposal>) returns (df: Lookup)
      ensures df == LookupOf(ds)
    {
      df := [];
      for i := 0 to |ds|
        invariant df == LookupOf(ds[..i])
      {
        assert ds[..i + 1][..i] == ds[..i];
        df := Put(df, PairKey(ds[i].a, ds[i].b), ds[i].verdict);
      }
      assert ds[..|ds|] == ds;
    }

    /** All merge edges in order, stopping at the first one that violates a foreign key. */
    method ApplyEdges(ds: seq<Proposal>, df: Lookup, now: real, source: string) returns (ok: bool, written: nat)
      requires Valid()
      modifies this
      ensures ok == AllKnown(old(db), ds)
      ensures ok ==> Valid() && db == Fold(old(db), ds, df, now, source)
      ensures ok ==> written == ClusterRepeat.InsertCount(old(db), ds, df, now, source)
    {
      hide Fold, Step, Good, ClusterRepeat.InsertCount, ClusterRepeat.Inserts;
      var index := LoadIndex();
      written := 0;
      FoldNone(db, df, now, source);
      for i := 0 to |ds|
        invariant Valid() && Coherent(index, db)
        invariant AllKnown(old(db), ds[..i])
        invariant db == Fold(old(db), ds[..i], df, now, source)
        invariant written == ClusterRepeat.InsertCount(old(db), ds[..i], df, now, source)
      {
        var inserted;
        ok, index, inserted := ApplyEdge(ds[i], df, now, source, index);
        if !ok {
          return;
        }
        assert ds[..i + 1] == ds[..i] + [ds[i]];
        FoldSnoc(old(db), ds[..i], ds[i], df, now, source);
        written := written + inserted;
      }
      assert ds[..|ds|] == ds;
      ok := true;
    }

    method ApplyRun(ds: seq<Proposal>, now: real, source: string) returns (r: Result<nat, StoreError>)
      requires Valid()
      modifies this
      ensures Valid() && db == ClusterRuns.ApplyRun(old(db), ds, now, source)
      ensures r ==
        if ds == [] then Ok(0)
        else if !AllKnown(old(db), ds) then Err(ForeignKeyViolation)
        else Ok(ClusterRepeat.InsertCount(Wipe(old(db), source), ds, LookupOf(ds), now, source))
    {
      if ds == [] {
        return Ok(0);
      }
      var begin := db;
      db := Wipe(db, source);
      var df := BuildLookup(ds);
      var ok, written := ApplyEdges(ds, df, now, source);
      if !ok {
        db := begin;
        return Err(ForeignKeyViolation);
      }
      return Ok(written);
    }
  }
}
