/** What the three signals say of a pair, in terms of what was recorded about the two devices. */
module SignalMeanings {
  import opened Wrappers
  import opened Aggregator
  import opened Scorers
  import Sums

  /** The sightings overlap, or the end of the one that ends first is at most so far from the start of the other. */
  predicate Close(x: SeqSeen, y: SeqSeen, maxApart: real) {
    if x.last < y.first then y.first - x.last <= maxApart
    else if y.last < x.first then x.first - y.last <= maxApart
    else 0.0 <= maxApart
  }

  /** Some sighting of one is close to some sighting of the other, and their numbers are this far apart. */
  ghost predicate Linked(a: seq<SeqSeen>, b: seq<SeqSeen>, maxApart: real, least: int, most: int) {
    exists x, y :: x in a && y in b && Close(x, y, maxApart)
      && (least <= x.number - y.number <= most || least <= y.number - x.number <= most)
  }

  lemma PairLinks(a: seq<SeqSeen>, b: seq<SeqSeen>, maxApart: real, least: int, most: int)
    requires least >= 0
    ensures SomePair(a, b, maxApart, least, most) <==> Linked(a, b, maxApart, least, most)
  {
    if SomePair(a, b, maxApart, least, most) {
      var i, j :| 0 <= i < |a| && 0 <= j < |b| && InReach(a[i], b[j], maxApart) && least <= Step(a[i], b[j]) <= most;
      assert a[i] in a && b[j] in b && Close(a[i], b[j], maxApart);
    }
    if Linked(a, b, maxApart, least, most) {
      var x, y :| x in a && y in b && Close(x, y, maxApart)
        && (least <= x.number - y.number <= most || least <= y.number - x.number <= most);
      var i :| 0 <= i < |a| && a[i] == x;
      var j :| 0 <= j < |b| && b[j] == y;
      assert InReach(a[i], b[j], maxApart) && least <= Step(a[i], b[j]) <= most;
    }
  }

  /** Numbers one apart in close sightings score 1, numbers within the step limit 0.6, nothing closer 0. */
  lemma CarryoverMeans(a: seq<SeqSeen>, b: seq<SeqSeen>, maxStep: int, maxApart: real)
    ensures var r := Carryover(a, b, maxStep, maxApart);
      && (r == 1.0 <==> Linked(a, b, maxApart, 1, 1))
      && (r == 0.6 <==> !Linked(a, b, maxApart, 1, 1) && Linked(a, b, maxApart, 0, maxStep))
      && (r == 0.0 <==> !Linked(a, b, maxApart, 1, 1) && !Linked(a, b, maxApart, 0, maxStep))
  {
    hide SomePair, Linked;
    PairLinks(a, b, maxApart, 1, 1);
    PairLinks(a, b, maxApart, 0, maxStep);
  }

  /** The window signal is the best of the two devices' windows in one and the same session, if any scores. */
  lemma SessionsMean(a: map<int, Window>, b: map<int, Window>, q: WindowParams, r: Outcome)
    requires BestOf(PerSession(a, b, q), r)
    ensures r.Scores? || r == Abstains
    ensures r == Abstains <==> forall s :: s in a && s in b ==> WindowPair(a[s], b[s], q) == Abstains
    ensures r.Scores? ==>
      && (exists s :: s in a && s in b && WindowPair(a[s], b[s], q) == r)
      && (forall s :: s in a && s in b && WindowPair(a[s], b[s], q).Scores? ==>
            WindowPair(a[s], b[s], q).score <= r.score)
  {
    hide WindowPair;
    var per := PerSession(a, b, q);
    forall s | s in a && s in b
      ensures s in per && per[s] == WindowPair(a[s], b[s], q) && (per[s].Scores? || per[s] == Abstains)
    {
      WindowRange(a[s], b[s], q);
    }
    assert forall s :: s in per ==> s in a && s in b;
  }

  /** The cohort signal is the best handoff on one and the same sniffer, unless the devices were concurrent on one. */
  lemma CohortMeans(a: Heard, b: Heard, p: CohortParams, r: Outcome)
    requires CohortScored(a, b, p, r)
    ensures (exists s :: s in a && s in b && Concurrent(a[s], b[s], p.slack)) ==> r == Scores(-1.0)
    ensures (forall s :: s in a && s in b ==> !Concurrent(a[s], b[s], p.slack) && !Handoff(a[s], b[s], p).Raised?) ==>
      && (r.Scores? <==> exists s :: s in a && s in b && Handoff(a[s], b[s], p).Scores?)
      && (r.Scores? ==>
            && (exists s :: s in a && s in b && Handoff(a[s], b[s], p) == r)
            && (forall s :: s in a && s in b && Handoff(a[s], b[s], p).Scores? ==>
                  Handoff(a[s], b[s], p).score <= r.score))
  {
    hide Handoff, Concurrent;
    var per := PerSniffer(a, b, p);
    assert forall s :: s in per <==> s in a && s in b;
    assert forall s :: s in per ==> per[s] == Handoff(a[s], b[s], p);
  }

  /**
   Which of the signals speak: the cohort only of two resolvable addresses heard by a common sniffer, the carry-over
   only where both devices have sequence numbers; every other signal is left as it was.
   */
  lemma SignalsSay(a: View, b: View, l: Limits, others: Signals, signals: Signals)
    requires Says(a, b, l, others, signals)
    ensures var cohort, carry := OutcomeOf(signals, "rotation_cohort"), OutcomeOf(signals, "continuity_seq_carryover");
      && (if a.resolvable && b.resolvable && (exists s :: s in a.heard && s in b.heard)
          then CohortScored(a.heard, b.heard, l.cohort, cohort) else cohort == Unavailable)
      && BestOf(PerSession(a.windows, b.windows, l.window), OutcomeOf(signals, "co_lifespan_match"))
      && (if a.numbers == [] || b.numbers == [] then carry == Abstains
          else carry == Scores(Carryover(a.numbers, b.numbers, l.maxStep, l.maxApart)))
    ensures forall name ::
      name !in {"rotation_cohort", "co_lifespan_match", "continuity_seq_carryover"} ==>
        OutcomeOf(signals, name) == OutcomeOf(others, name)
  {
    hide CohortScored, BestOf, Carryover;
    var common := a.heard.Keys * b.heard.Keys;
    if common != {} {
      var s := Sums.Choose(common);
      assert s in a.heard && s in b.heard;
    }
    if s :| s in a.heard && s in b.heard { assert s in common; }
    assert "rotation_cohort"[0] == 'r' && "co_lifespan_match"[2] == '_' && "continuity_seq_carryover"[2] == 'n';
  }
}
