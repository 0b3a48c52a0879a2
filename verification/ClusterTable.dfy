/**
 The persisted cluster tables as values: `device_clusters`, `device_cluster_members`
 and the ids of `devices` they refer to, with the statements `Clusters.apply_run`
 issues and one run as a fold of its per-edge step.
 */
module ClusterTable {
  import opened Wrappers

  /** One row of device_clusters, without its user label. */
  datatype ClusterRow = ClusterRow(createdAt: real, lastDecidedAt: real, source: string, confirmed: bool)

  /** The aggregator's verdict as the tables keep it; `signals` stands for the JSON text. */
  datatype Verdict = Verdict(score: real, signals: string, profile: string)

  datatype Proposal = Proposal(a: int, b: int, verdict: Verdict)

  /** The non-key columns of one row of device_cluster_members. */
  datatype Evidence = Evidence(best: Option<Verdict>, decidedAt: real, decidedBy: string)

  /** `members` is keyed by the primary key (cluster_id, device_id); ids below `nextId` may have been used. */
  datatype Tables = Tables(
    devices: set<int>,
    clusters: map<int, ClusterRow>,
    members: map<(int, int), Evidence>,
    nextId: int)

  // ---------------------------------------------------------------- integrity

  /** No member row dangles, no device is in two clusters, ids are not reused. */
  ghost predicate Good(t: Tables) {
    && (forall c, d :: (c, d) in t.members ==> c in t.clusters && d in t.devices)
    && (forall c, e, d :: (c, d) in t.members && (e, d) in t.members ==> c == e)
    && (forall c :: c in t.clusters ==> c < t.nextId)
  }

  /** The cluster holding device `d`, if any. */
  ghost function ClusterOf(t: Tables, d: int): (r: Option<int>)
    ensures r.None? ==> forall c :: (c, d) !in t.members
    ensures r.Some? ==> (r.value, d) in t.members
  {
    if c :| (c, d) in t.members then Some(c) else None
  }

  ghost predicate Together(t: Tables, x: int, y: int) {
    exists c :: (c, x) in t.members && (c, y) in t.members
  }

  // --------------------------------------------------------------- statements

  function Touch(t: Tables, c: int, now: real): Tables
    requires c in t.clusters
  {
    t.(clusters := t.clusters[c := t.clusters[c].(lastDecidedAt := now)])
  }

  predicate Speculative(row: ClusterRow, source: string) {
    row.source == source && !row.confirmed
  }

  /** DELETE FROM device_clusters WHERE source and confirmed = 0, with the ON DELETE CASCADE. */
  function Wipe(t: Tables, source: string): Tables {
    var stays := map c | c in t.clusters && !Speculative(t.clusters[c], source) :: t.clusters[c];
    t.(clusters := stays, members := map k | k in t.members && k.0 in stays :: t.members[k])
  }

  /** INSERT OR IGNORE of one member row. */
  function Insert(t: Tables, c: int, d: int, ev: Evidence): Tables {
    if (c, d) in t.members then t else t.(members := t.members[(c, d) := ev])
  }

  /** The rows after UPDATE device_cluster_members SET cluster_id = keep WHERE cluster_id = drop. */
  function Rekeyed(ms: map<(int, int), Evidence>, keep: int, drop: int): map<(int, int), Evidence>
  {
    map k | k in (set k | k in ms :: if k.0 == drop then (keep, k.1) else k)
      :: if k.0 == keep && (drop, k.1) in ms then ms[(drop, k.1)] else ms[k]
  }

  function Absorb(t: Tables, keep: int, drop: int, now: real): Tables
    requires keep != drop && keep in t.clusters
  {
    Touch(t.(clusters := t.clusters - {drop}, members := Rekeyed(t.members, keep, drop)), keep, now)
  }

  function Create(t: Tables, now: real, source: string): Tables {
    t.(clusters := t.clusters[t.nextId := ClusterRow(now, now, source, true)], nextId := t.nextId + 1)
  }

  // ----------------------------------------------------------------- evidence

  /** `decision_for`: an insertion-ordered dict from the sorted pair to its last verdict. */
  type Lookup = seq<((int, int), Verdict)>

  function PairKey(a: int, b: int): (int, int) {
    if a <= b then (a, b) else (b, a)
  }

  function Put(df: Lookup, key: (int, int), v: Verdict): Lookup {
    if df == [] then [(key, v)]
    else if df[0].0 == key then [(key, v)] + df[1..]
    else [df[0]] + Put(df[1..], key, v)
  }

  function LookupOf(ds: seq<Proposal>): Lookup {
    if ds == [] then []
    else
      var last := ds[|ds| - 1];
      Put(LookupOf(ds[..|ds| - 1]), PairKey(last.a, last.b), last.verdict)
  }

  predicate Involves(entry: ((int, int), Verdict), d: int) {
    d == entry.0.0 || d == entry.0.1
  }

  const SCORE_FLOOR: real := -2.0

  /** The left-to-right scan of `_add_member`: a later entry replaces only on a strictly higher score. */
  function Best(df: Lookup, d: int): Option<Verdict> {
    if df == [] then None
    else
      var before := Best(df[..|df| - 1], d);
      var last := df[|df| - 1];
      if Involves(last, d) && last.1.score > (if before.Some? then before.value.score else SCORE_FLOOR)
      then Some(last.1) else before
  }

  function EvidenceFor(df: Lookup, d: int, now: real, source: string): Evidence {
    Evidence(Best(df, d), now, source)
  }

  // --------------------------------------------------------------------- run

  /** What one merge edge does to the tables. */
  ghost function Step(t: Tables, p: Proposal, df: Lookup, now: real, source: string): Tables
    requires Good(t)
  {
    var ca, cb := ClusterOf(t, p.a), ClusterOf(t, p.b);
    if ca.Some? && cb.Some? then
      if ca == cb then Touch(t, ca.value, now)
      else if ca.value < cb.value then Absorb(t, ca.value, cb.value, now)
      else Absorb(t, cb.value, ca.value, now)
    else if ca.Some? then
      Touch(Insert(t, ca.value, p.b, EvidenceFor(df, p.b, now, source)), ca.value, now)
    else if cb.Some? then
      Touch(Insert(t, cb.value, p.a, EvidenceFor(df, p.a, now, source)), cb.value, now)
    else
      Insert(Insert(Create(t, now, source), t.nextId, p.a, EvidenceFor(df, p.a, now, source)),
             t.nextId, p.b, EvidenceFor(df, p.b, now, source))
  }

  ghost predicate Known(t: Tables, p: Proposal) {
    p.a in t.devices && p.b in t.devices
  }

  ghost predicate AllKnown(t: Tables, ds: seq<Proposal>) {
    forall i :: 0 <= i < |ds| ==> Known(t, ds[i])
  }

  /** Each step keeps the tables' integrity; in particular an absorb never meets a duplicate key. */
  lemma StepGood(t: Tables, p: Proposal, df: Lookup, now: real, source: string)
    requires Good(t) && Known(t, p)
    ensures Good(Step(t, p, df, now, source))
    ensures Step(t, p, df, now, source).devices == t.devices
  {
    var ca, cb := ClusterOf(t, p.a), ClusterOf(t, p.b);
    if ca.Some? && cb.Some? && ca != cb {
      var older := ca.value < cb.value;
      AbsorbGood(t, if older then ca.value else cb.value, if older then cb.value else ca.value, now);
    } else if ca.Some? && cb.None? {
      JoinGood(t, ca.value, p.b, EvidenceFor(df, p.b, now, source), now);
    } else if ca.None? && cb.Some? {
      JoinGood(t, cb.value, p.a, EvidenceFor(df, p.a, now, source), now);
    } else if ca.None? && cb.None? {
      CreateGood(t, p.a, p.b, EvidenceFor(df, p.a, now, source), EvidenceFor(df, p.b, now, source), now, source);
    }
    hide Absorb, Insert, Create, EvidenceFor;
  }

  lemma AbsorbGood(t: Tables, keep: int, drop: int, now: real)
    requires Good(t) && keep != drop && keep in t.clusters
    ensures Good(Absorb(t, keep, drop, now)) && Absorb(t, keep, drop, now).devices == t.devices
  {
  }

  lemma JoinGood(t: Tables, c: int, d: int, ev: Evidence, now: real)
    requires Good(t) && c in t.clusters && d in t.devices && forall e :: (e, d) !in t.members
    ensures Good(Touch(Insert(t, c, d, ev), c, now))
  {
  }

  lemma CreateGood(t: Tables, a: int, b: int, evA: Evidence, evB: Evidence, now: real, source: string)
    requires Good(t) && a in t.devices && b in t.devices && forall e :: (e, a) !in t.members && (e, b) !in t.members
    ensures Good(Insert(Insert(Create(t, now, source), t.nextId, a, evA), t.nextId, b, evB))
  {
  }

  ghost function Fold(t: Tables, ds: seq<Proposal>, df: Lookup, now: real, source: string): (r: Tables)
    requires Good(t) && AllKnown(t, ds)
    ensures Good(r) && r.devices == t.devices
    decreases |ds|
  {
    if ds == [] then t
    else
      var before := Fold(t, ds[..|ds| - 1], df, now, source);
      StepGood(before, ds[|ds| - 1], df, now, source);
      Step(before, ds[|ds| - 1], df, now, source)
  }
}
