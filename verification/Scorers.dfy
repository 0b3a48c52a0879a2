/** Three of the pairwise signals: the rotation handoff, the session window and the sequence carry-over. */
module Scorers {
  import opened Sums
  import opened Wrappers
  import opened Reals
  import opened Aggregator

  function Min(a: real, b: real): real {
    if a <= b then a else b
  }

  function Max(a: real, b: real): real {
    if a >= b then a else b
  }

  function Distance(a: real, b: real): real {
    if a <= b then b - a else a - b
  }

  function Least(ts: seq<real>): (m: real)
    requires ts != []
    ensures m in ts && forall t :: t in ts ==> m <= t
  {
    if |ts| == 1 then ts[0]
    else
      assert forall t :: t in ts <==> t == ts[0] || t in ts[1..];
      Min(ts[0], Least(ts[1..]))
  }

  function Greatest(ts: seq<real>): (m: real)
    requires ts != []
    ensures m in ts && forall t :: t in ts ==> t <= m
  {
    if |ts| == 1 then ts[0]
    else
      assert forall t :: t in ts <==> t == ts[0] || t in ts[1..];
      Max(ts[0], Greatest(ts[1..]))
  }

  /** `r` is what taking the best of the per-key outcomes gives: any raise wins, then the highest score. */
  ghost predicate BestOf(perKey: map<int, Outcome>, r: Outcome) {
    if exists k :: k in perKey && perKey[k].Raised? then r == Raised
    else if forall k :: k in perKey ==> !perKey[k].Scores? then r == Abstains
    else && r.Scores?
         && (exists k :: k in perKey && perKey[k] == r)
         && (forall k :: k in perKey && perKey[k].Scores? ==> perKey[k].score <= r.score)
  }

  /** Which key is looked at first makes no difference. */
  lemma BestIsUnique(perKey: map<int, Outcome>, r: Outcome, s: Outcome)
    requires BestOf(perKey, r) && BestOf(perKey, s)
    ensures r == s
  {
  }

  method TakeBest(perKey: map<int, Outcome>) returns (best: Outcome)
    ensures BestOf(perKey, best)
  {
    best := Abstains;
    var todo := perKey.Keys;
    while todo != {}
      invariant todo <= perKey.Keys
      invariant best.Abstains? || best.Scores?
      invariant forall k :: k in perKey && k !in todo ==>
        !perKey[k].Raised? && (perKey[k].Scores? ==> best.Scores? && perKey[k].score <= best.score)
      invariant best.Scores? ==> exists k :: k in perKey && perKey[k] == best
      decreases |todo|
    {
      var k := Pick(todo);
      todo := todo - {k};
      if perKey[k].Raised? {
        return Raised;
      }
      if perKey[k].Scores? && (best.Abstains? || perKey[k].score > best.score) {
        best := perKey[k];
      }
    }
  }

  // --------------------------------------------------------- rotation cohort

  datatype CohortParams = CohortParams(
    expected: real, windowMin: real, windowMax: real, slack: real, minObservations: int)

  /** Both devices were alive on this sniffer at the same time, for longer than the slack. */
  predicate Concurrent(a: seq<real>, b: seq<real>, slack: real) {
    && a != []
    && b != []
    && Min(Greatest(a), Greatest(b)) - Max(Least(a), Least(b)) > slack
  }

  /** The smaller positive forward gap, or zero when there is none. */
  function BestGap(a: seq<real>, b: seq<real>): real
    requires a != [] && b != []
  {
    var ab, ba := Least(b) - Greatest(a), Least(a) - Greatest(b);
    if ab > 0.0 && ba > 0.0 then Min(ab, ba) else if ab > 0.0 then ab else if ba > 0.0 then ba else 0.0
  }

  function Handoff(a: seq<real>, b: seq<real>, p: CohortParams): Outcome {
    if |a| < p.minObservations || |b| < p.minObservations then Abstains
    else if a == [] || b == [] then Raised
    else
      var gap := BestGap(a, b);
      if gap > p.windowMax then Scores(0.0)
      else if gap < p.windowMin then Scores(0.5)
      else if p.expected == 0.0 then Raised
      else Scores(Max(0.0, 1.0 - Distance(gap, p.expected) / p.expected))
  }

  type Heard = map<int, seq<real>>

  function PerSniffer(a: Heard, b: Heard, p: CohortParams): map<int, Outcome> {
    map s | s in a.Keys * b.Keys :: Handoff(a[s], b[s], p)
  }

  ghost predicate CohortScored(a: Heard, b: Heard, p: CohortParams, r: Outcome) {
    if exists s :: s in a && s in b && Concurrent(a[s], b[s], p.slack) then r == Scores(-1.0)
    else BestOf(PerSniffer(a, b, p), r)
  }

  method CohortScore(a: Heard, b: Heard, p: CohortParams) returns (r: Outcome)
    ensures CohortScored(a, b, p, r)
  {
    hide Concurrent, BestOf, Handoff;
    var todo := a.Keys * b.Keys;
    while todo != {}
      invariant todo <= a.Keys * b.Keys
      invariant forall s :: s in a && s in b && s !in todo ==> !Concurrent(a[s], b[s], p.slack)
      decreases |todo|
    {
      var s := Pick(todo);
      todo := todo - {s};
      if Concurrent(a[s], b[s], p.slack) {
        return Scores(-1.0);
      }
    }
    r := TakeBest(PerSniffer(a, b, p));
  }

  /** The gap is the distance between the two sets of times, when one lies wholly after the other. */
  lemma GapIsDistance(a: seq<real>, b: seq<real>)
    requires a != [] && b != []
    ensures BestGap(a, b) > 0.0 ==>
      && (forall x, y :: x in a && y in b ==> BestGap(a, b) <= Distance(x, y))
      && (exists x, y :: x in a && y in b && BestGap(a, b) == Distance(x, y))
    ensures BestGap(a, b) == 0.0 <==> Max(Least(a), Least(b)) <= Min(Greatest(a), Greatest(b))
  {
  }

  /** A handoff is judged alike from both sides. */
  lemma HandoffSymmetric(a: seq<real>, b: seq<real>, p: CohortParams)
    ensures Handoff(a, b, p) == Handoff(b, a, p)
    ensures Concurrent(a, b, p.slack) == Concurrent(b, a, p.slack)
  {
  }

  /**
   A handoff score is in [0, 1] unless a negative expected rotation is reached, and peaks exactly at the expected gap.
   */
  lemma HandoffRangeExactly(a: seq<real>, b: seq<real>, p: CohortParams)
    requires Handoff(a, b, p).Scores?
    ensures 0.0 <= Handoff(a, b, p).score
    ensures Handoff(a, b, p).score <= 1.0 <==> !(p.expected < 0.0 && p.windowMin <= BestGap(a, b) <= p.windowMax)
    ensures p.expected > 0.0 ==>
      (Handoff(a, b, p).score == 1.0 <==> BestGap(a, b) == p.expected && p.windowMin <= p.expected <= p.windowMax)
  {
  }

  /** Two devices are concurrent exactly when some of their times enclose more than the slack for both. */
  lemma ConcurrentExactly(a: seq<real>, b: seq<real>, slack: real)
    ensures Concurrent(a, b, slack) <==>
      exists t, u, v, w ::
        && t in a && u in a && v in b && w in b
        && u - t > slack && w - v > slack && u - v > slack && w - t > slack
  {
    if Concurrent(a, b, slack) {
      var t, u, v, w := Least(a), Greatest(a), Least(b), Greatest(b);
      assert t in a && u in a && v in b && w in b && u - t > slack && w - v > slack && u - v > slack && w - t > slack;
    }
  }

  /**
   A handoff over too few sightings says nothing; beyond the window it scores nothing, before it a half, and inside it
   as much less than 1 as the gap is off the expected one, in shares of that.
   */
  lemma CohortBands(a: seq<real>, b: seq<real>, p: CohortParams)
    requires p.expected > 0.0
    ensures var r, few := Handoff(a, b, p), |a| < p.minObservations || |b| < p.minObservations;
      && (r == Abstains <==> few)
      && (r == Raised <==> !few && (a == [] || b == []))
      && (!few && a != [] && b != [] ==>
            var gap := BestGap(a, b);
            && r.Scores? && gap >= 0.0
            && (gap > p.windowMax ==> r.score == 0.0)
            && (gap <= p.windowMax && gap < p.windowMin ==> r.score == 0.5)
            && (p.windowMin <= gap <= p.windowMax ==>
                  r.score * p.expected == Max(0.0, p.expected - Distance(gap, p.expected))))
  {
    hide Least, Greatest, Max, Distance;
    if a != [] && b != [] {
      GapIsNotNegative(a, b);
      ShareOff(Distance(BestGap(a, b), p.expected), p.expected);
    }
  }

  lemma GapIsNotNegative(a: seq<real>, b: seq<real>)
    requires a != [] && b != []
    ensures BestGap(a, b) >= 0.0
  {
  }

  lemma ShareOff(off: real, expected: real)
    requires expected > 0.0
    ensures Max(0.0, 1.0 - off / expected) * expected == Max(0.0, expected - off)
  {
    var x := off / expected;
    MultiplyBack(off, expected);
    assert (1.0 - x) * expected == expected - x * expected;
    if x <= 1.0 { Spread(0.0, 1.0 - x, expected); } else { StrictSpread(1.0 - x, 0.0, expected); }
  }

  lemma CohortSymmetric(a: Heard, b: Heard, p: CohortParams, r: Outcome)
    requires CohortScored(a, b, p, r)
    ensures CohortScored(b, a, p, r)
  {
    hide Handoff, Concurrent, BestOf;
    forall s | s in a && s in b
      ensures Handoff(a[s], b[s], p) == Handoff(b[s], a[s], p)
        && Concurrent(a[s], b[s], p.slack) == Concurrent(b[s], a[s], p.slack)
    {
      HandoffSymmetric(a[s], b[s], p);
    }
    assert PerSniffer(a, b, p) == PerSniffer(b, a, p);
  }

  /**
   What the cohort signal says: it speaks only of two resolvable addresses, and rejects on any concurrent sighting.
   */
  lemma CohortRange(a: Heard, b: Heard, p: CohortParams, r: Outcome)
    requires CohortScored(a, b, p, r) && p.expected > 0.0 && p.minObservations > 0
    ensures !r.Raised? && !r.Unavailable?
    ensures r.Scores? ==> r.score == -1.0 || 0.0 <= r.score <= 1.0
    ensures r == Scores(-1.0) <==> exists s :: s in a && s in b && Concurrent(a[s], b[s], p.slack)
    ensures r == Abstains <==>
      forall s :: s in a && s in b ==>
        !Concurrent(a[s], b[s], p.slack) && (|a[s]| < p.minObservations || |b[s]| < p.minObservations)
  {
    hide Concurrent;
    var per := PerSniffer(a, b, p);
    forall s | s in a && s in b
      ensures s in per && !per[s].Raised? && !per[s].Unavailable?
      ensures per[s].Scores? ==> 0.0 <= per[s].score <= 1.0
      ensures per[s].Scores? <==> |a[s]| >= p.minObservations && |b[s]| >= p.minObservations
    {
      if per[s].Scores? {
        HandoffRangeExactly(a[s], b[s], p);
      }
    }
    assert forall k :: k in per ==> k in a && k in b;
  }

  // ---------------------------------------------------------- session windows

  datatype Window = Window(first: real, last: real)
  datatype WindowParams = WindowParams(minOverlap: real, maxGap: real, nearGap: real)

  predicate WellFormed(w: Window) {
    w.first <= w.last
  }

  predicate Overlap(a: Window, b: Window) {
    Max(a.first, b.first) < Min(a.last, b.last)
  }

  /** The handoff part, after the earlier window has been put first. */
  function GapScore(gap: real, q: WindowParams): Outcome {
    if gap > q.maxGap then Abstains
    else if gap <= q.nearGap then Scores(0.95)
    else
      var span := q.maxGap - q.nearGap;
      if span <= 0.0 then Scores(0.95) else Scores(0.95 - 0.5 * ((gap - q.nearGap) / span))
  }

  function WindowPair(a: Window, b: Window, q: WindowParams): Outcome {
    if Overlap(a, b) then
      var overlap := Min(a.last, b.last) - Max(a.first, b.first);
      var union := Max(a.last, b.last) - Min(a.first, b.first);
      if union <= 0.0 then Abstains
      else if overlap / union >= q.minOverlap then Scores(0.95)
      else if overlap / union >= 0.5 then Scores(0.4)
      else Scores(0.0)
    else if a.first > b.first then GapScore(a.first - b.last, q)
    else GapScore(b.first - a.last, q)
  }

  function PerSession(a: map<int, Window>, b: map<int, Window>, q: WindowParams): map<int, Outcome> {
    map s | s in a.Keys * b.Keys :: WindowPair(a[s], b[s], q)
  }

  method WindowScore(a: map<int, Window>, b: map<int, Window>, q: WindowParams) returns (r: Outcome)
    ensures BestOf(PerSession(a, b, q), r)
  {
    r := TakeBest(PerSession(a, b, q));
  }

  /** Within the scored range the handoff falls from 0.95 to 0.45, strictly. */
  lemma GapScoreShape(g: real, h: real, q: WindowParams)
    ensures GapScore(g, q).Scores? ==> 0.45 <= GapScore(g, q).score <= 0.95
    ensures GapScore(g, q) == Abstains <==> g > q.maxGap
    ensures GapScore(g, q) == Scores(0.95) <==> g <= q.maxGap && g <= q.nearGap
    ensures q.nearGap < g < h <= q.maxGap ==> GapScore(g, q).score > GapScore(h, q).score
  {
    var span := q.maxGap - q.nearGap;
    if q.nearGap < g <= q.maxGap {
      Fraction(g - q.nearGap, span);
    }
    if q.nearGap < g < h <= q.maxGap {
      FractionGrows(g - q.nearGap, h - q.nearGap, span);
    }
  }

  lemma Fraction(x: real, y: real)
    requires 0.0 < x <= y
    ensures 0.0 < x / y <= 1.0
  {
  }

  lemma FractionGrows(x: real, z: real, y: real)
    requires x < z && 0.0 < y
    ensures x / y < z / y
  {
  }

  /** Neither early exit for an empty union or an empty span is ever taken, and every score is in [0, 0.95]. */
  lemma WindowRange(a: Window, b: Window, q: WindowParams)
    ensures WindowPair(a, b, q).Abstains? || WindowPair(a, b, q).Scores?
    ensures WindowPair(a, b, q).Scores? ==> 0.0 <= WindowPair(a, b, q).score <= 0.95
    ensures Overlap(a, b) ==> WindowPair(a, b, q).Scores?
  {
    GapScoreShape(b.first - a.last, 0.0, q);
    GapScoreShape(a.first - b.last, 0.0, q);
  }

  /** The time both windows cover; negative when they lie apart. */
  function SharedTime(a: Window, b: Window): real {
    (if a.last < b.last then a.last else b.last) - (if a.first > b.first then a.first else b.first)
  }

  /** The time from the earliest start to the latest end. */
  function SpannedTime(a: Window, b: Window): real {
    (if a.last > b.last then a.last else b.last) - (if a.first < b.first then a.first else b.first)
  }

  /** Windows that overlap are scored in three bands, by how much of the time they span they share. */
  lemma OverlapBands(a: Window, b: Window, q: WindowParams)
    requires SharedTime(a, b) > 0.0
    ensures var shared, spanned, r := SharedTime(a, b), SpannedTime(a, b), WindowPair(a, b, q);
      && (r == Scores(0.95) <==> shared >= q.minOverlap * spanned)
      && (r == Scores(0.4) <==> shared < q.minOverlap * spanned && 2.0 * shared >= spanned)
      && (r == Scores(0.0) <==> shared < q.minOverlap * spanned && 2.0 * shared < spanned)
  {
    var shared, spanned := SharedTime(a, b), SpannedTime(a, b);
    ShareReaches(shared, spanned, q.minOverlap);
    ShareReaches(shared, spanned, 0.5);
  }

  lemma ShareReaches(x: real, y: real, share: real)
    requires y > 0.0
    ensures x / y >= share <==> x >= share * y
  {
    MultiplyBack(x, y);
    TimesReaches(x / y, x, y, share);
  }

  lemma TimesReaches(z: real, x: real, y: real, share: real)
    requires y > 0.0 && z * y == x
    ensures z >= share <==> x >= share * y
  {
    if z >= share { Spread(share, z, y); } else { StrictSpread(z, share, y); }
  }

  /** For windows that span as long, more shared time never scores less. */
  lemma MoreSharedScoresNoLess(a: Window, b: Window, c: Window, d: Window, q: WindowParams)
    requires 0.0 < SharedTime(a, b) <= SharedTime(c, d) && SpannedTime(a, b) == SpannedTime(c, d)
    ensures WindowPair(a, b, q).Scores? && WindowPair(c, d, q).Scores?
    ensures WindowPair(a, b, q).score <= WindowPair(c, d, q).score
  {
    hide WindowPair, SharedTime, SpannedTime;
    OverlapBands(a, b, q);
    OverlapBands(c, d, q);
  }

  /** Windows that lie apart are scored by the time from the end of the earlier to the start of the later. */
  lemma HandoffBands(a: Window, b: Window, q: WindowParams)
    requires SharedTime(a, b) <= 0.0
    ensures var gap, r := if a.first > b.first then a.first - b.last else b.first - a.last, WindowPair(a, b, q);
      && (r == Abstains <==> gap > q.maxGap)
      && (r == Scores(0.95) <==> gap <= q.maxGap && gap <= q.nearGap)
      && (q.nearGap < gap <= q.maxGap ==>
            r.Scores? && (0.95 - r.score) * (q.maxGap - q.nearGap) == 0.5 * (gap - q.nearGap))
  {
    var gap := if a.first > b.first then a.first - b.last else b.first - a.last;
    GapScoreShape(gap, 0.0, q);
    if q.nearGap < gap <= q.maxGap {
      var span := q.maxGap - q.nearGap;
      var x := (gap - q.nearGap) / span;
      MultiplyBack(gap - q.nearGap, span);
      assert WindowPair(a, b, q) == GapScore(gap, q) == Scores(0.95 - 0.5 * x);
      assert (0.5 * x) * span == 0.5 * (x * span);
    }
  }

  /** Two gaps are scored alike exactly when they are equal, both too long, or both near. */
  predicate SameBand(g: real, h: real, q: WindowParams) {
    || g == h
    || (g > q.maxGap && h > q.maxGap)
    || (g <= q.maxGap && g <= q.nearGap && h <= q.maxGap && h <= q.nearGap)
  }

  /**
   The window score ignores which device comes first exactly when the windows overlap, start at different times,
   or their two ends, measured from the common start, fall in the same band.
   */
  lemma WindowSymmetricExactly(a: Window, b: Window, q: WindowParams)
    ensures WindowPair(a, b, q) == WindowPair(b, a, q) <==>
      Overlap(a, b) || a.first != b.first || SameBand(a.first - a.last, a.first - b.last, q)
  {
  }

  /** Windows that end no earlier than they start are judged alike from both sides. */
  lemma WindowSymmetric(a: Window, b: Window, q: WindowParams)
    requires WellFormed(a) && WellFormed(b) && q.maxGap >= 0.0 && q.nearGap >= 0.0
    ensures WindowPair(a, b, q) == WindowPair(b, a, q)
  {
  }

  /** With the default limits, a window that runs backwards makes the verdict depend on the order. */
  lemma BackwardsWindowMisjudged()
    ensures var q := WindowParams(0.9, 60.0, 5.0);
      WindowPair(Window(10.0, 0.0), Window(10.0, -100.0), q).Scores?
      && WindowPair(Window(10.0, -100.0), Window(10.0, 0.0), q) == Abstains
  {
  }

  lemma SessionsSymmetric(a: map<int, Window>, b: map<int, Window>, q: WindowParams, r: Outcome)
    requires BestOf(PerSession(a, b, q), r) && q.maxGap >= 0.0 && q.nearGap >= 0.0
    requires forall s :: s in a && s in b ==> WellFormed(a[s]) && WellFormed(b[s])
    ensures BestOf(PerSession(b, a, q), r)
  {
    hide WindowPair;
    forall s | s in a && s in b
      ensures WindowPair(a[s], b[s], q) == WindowPair(b[s], a[s], q)
    {
      WindowSymmetric(a[s], b[s], q);
    }
    assert PerSession(a, b, q) == PerSession(b, a, q);
  }

  // -------------------------------------------------------- sequence carry-over

  datatype SeqSeen = SeqSeen(first: real, last: real, number: int)

  /** The time between two sightings; overlapping sightings have none. */
  function TimeApart(x: SeqSeen, y: SeqSeen): real {
    if x.last < y.first then y.first - x.last
    else if y.last < x.first then x.first - y.last
    else 0.0
  }

  function Step(x: SeqSeen, y: SeqSeen): nat {
    if x.number <= y.number then y.number - x.number else x.number - y.number
  }

  predicate InReach(x: SeqSeen, y: SeqSeen, maxApart: real) {
    TimeApart(x, y) <= maxApart
  }

  /** Some pair of sightings in reach of each other is at most `most`, and at least `least`, numbers apart. */
  ghost predicate SomePair(a: seq<SeqSeen>, b: seq<SeqSeen>, maxApart: real, least: int, most: int) {
    exists i, j :: 0 <= i < |a| && 0 <= j < |b| && InReach(a[i], b[j], maxApart) && least <= Step(a[i], b[j]) <= most
  }

  ghost function Carryover(a: seq<SeqSeen>, b: seq<SeqSeen>, maxStep: int, maxApart: real): real {
    if SomePair(a, b, maxApart, 1, 1) then 1.0 else if SomePair(a, b, maxApart, 0, maxStep) then 0.6 else 0.0
  }

  method CarryoverScore(a: seq<SeqSeen>, b: seq<SeqSeen>, maxStep: int, maxApart: real) returns (best: real)
    ensures best == Carryover(a, b, maxStep, maxApart)
  {
    hide InReach, Step;
    best := 0.0;
    for i := 0 to |a|
      invariant best == 0.0 || best == 0.6
      invariant forall k, j :: 0 <= k < i && 0 <= j < |b| && InReach(a[k], b[j], maxApart) ==>
        Step(a[k], b[j]) != 1 && (Step(a[k], b[j]) <= maxStep ==> best == 0.6)
      invariant best == 0.6 ==> SomePair(a, b, maxApart, 0, maxStep)
    {
      for j := 0 to |b|
        invariant best == 0.0 || best == 0.6
        invariant forall k, l ::
          0 <= k < |a| && 0 <= l < |b| && (k < i || (k == i && l < j)) && InReach(a[k], b[l], maxApart) ==>
          Step(a[k], b[l]) != 1 && (Step(a[k], b[l]) <= maxStep ==> best == 0.6)
        invariant best == 0.6 ==> SomePair(a, b, maxApart, 0, maxStep)
      {
        if !InReach(a[i], b[j], maxApart) {
          continue;
        }
        var d := Step(a[i], b[j]);
        if d == 1 {
          return 1.0;
        }
        if d <= maxStep {
          best := Max(best, 0.6);
        }
      }
    }
  }

  /** The time apart depends on the order exactly when each sighting ends before the other begins, unevenly. */
  lemma TimeApartSymmetricExactly(x: SeqSeen, y: SeqSeen)
    ensures TimeApart(x, y) == TimeApart(y, x) <==>
      !(x.last < y.first && y.last < x.first) || x.first + x.last == y.first + y.last
  {
  }

  predicate Forwards(s: seq<SeqSeen>) {
    forall i :: 0 <= i < |s| ==> s[i].first <= s[i].last
  }

  /** Sightings that end no earlier than they begin are judged alike from both sides. */
  lemma CarryoverSymmetric(a: seq<SeqSeen>, b: seq<SeqSeen>, maxStep: int, maxApart: real)
    requires Forwards(a) && Forwards(b)
    ensures Carryover(a, b, maxStep, maxApart) == Carryover(b, a, maxStep, maxApart)
  {
  }

  /**
   With one sighting a side the score depends on the order exactly when the two are in reach from one side only and
   near enough in number to score.
   */
  lemma CarryoverSymmetricExactly(x: SeqSeen, y: SeqSeen, maxStep: int, maxApart: real)
    ensures Carryover([x], [y], maxStep, maxApart) == Carryover([y], [x], maxStep, maxApart) <==>
      InReach(x, y, maxApart) == InReach(y, x, maxApart) || (Step(x, y) != 1 && Step(x, y) > maxStep)
  {
    hide InReach, Step;
    OnePair(x, y, maxApart, 1, 1);
    OnePair(y, x, maxApart, 1, 1);
    OnePair(x, y, maxApart, 0, maxStep);
    OnePair(y, x, maxApart, 0, maxStep);
    StepSymmetric(x, y);
  }

  lemma OnePair(x: SeqSeen, y: SeqSeen, maxApart: real, least: int, most: int)
    ensures SomePair([x], [y], maxApart, least, most) <==> InReach(x, y, maxApart) && least <= Step(x, y) <= most
  {
    hide InReach, Step;
    if InReach(x, y, maxApart) && least <= Step(x, y) <= most {
      assert InReach([x][0], [y][0], maxApart);
    }
  }

  lemma StepSymmetric(x: SeqSeen, y: SeqSeen)
    ensures Step(x, y) == Step(y, x)
  {
  }

  /** How much a step is worth: one apart most, within the limit less, else nothing. */
  function Level(x: SeqSeen, y: SeqSeen, maxStep: int): nat {
    if Step(x, y) == 1 then 2 else if Step(x, y) <= maxStep then 1 else 0
  }

  /** Some pair in reach from the side of `a` is worth more than every pair in reach from the side of `b`. */
  ghost predicate Leads(a: seq<SeqSeen>, b: seq<SeqSeen>, maxStep: int, maxApart: real) {
    exists i, j ::
      && 0 <= i < |a| && 0 <= j < |b| && InReach(a[i], b[j], maxApart)
      && LeadsWith(a, b, Level(a[i], b[j], maxStep), maxStep, maxApart)
  }

  ghost predicate LeadsWith(a: seq<SeqSeen>, b: seq<SeqSeen>, level: nat, maxStep: int, maxApart: real) {
    level > 0
    && forall k, l ::
      0 <= k < |a| && 0 <= l < |b| && InReach(b[l], a[k], maxApart) ==> Level(a[k], b[l], maxStep) < level
  }

  /** The score in points: one or more exactly when some pair in reach is worth as much. */
  lemma ScoreIsBestLevel(a: seq<SeqSeen>, b: seq<SeqSeen>, maxStep: int, maxApart: real)
    ensures forall i, j :: 0 <= i < |a| && 0 <= j < |b| && InReach(a[i], b[j], maxApart) ==>
      Level(a[i], b[j], maxStep) <= Points(Carryover(a, b, maxStep, maxApart))
    ensures var best := Points(Carryover(a, b, maxStep, maxApart)); best > 0 ==>
      exists i, j :: 0 <= i < |a| && 0 <= j < |b| && InReach(a[i], b[j], maxApart) && Level(a[i], b[j], maxStep) == best
  {
    hide InReach, Step;
    if SomePair(a, b, maxApart, 1, 1) {
      var i, j :| 0 <= i < |a| && 0 <= j < |b| && InReach(a[i], b[j], maxApart) && 1 <= Step(a[i], b[j]) <= 1;
      assert Level(a[i], b[j], maxStep) == 2;
    } else if SomePair(a, b, maxApart, 0, maxStep) {
      var i, j :| 0 <= i < |a| && 0 <= j < |b| && InReach(a[i], b[j], maxApart) && 0 <= Step(a[i], b[j]) <= maxStep;
      assert Level(a[i], b[j], maxStep) == 1;
    }
  }

  function Points(score: real): nat {
    if score == 1.0 then 2 else if score == 0.6 then 1 else 0
  }

  lemma LeadsExactly(a: seq<SeqSeen>, b: seq<SeqSeen>, maxStep: int, maxApart: real)
    ensures Leads(a, b, maxStep, maxApart) <==> Carryover(a, b, maxStep, maxApart) > Carryover(b, a, maxStep, maxApart)
  {
    hide InReach, Step, SomePair, Level;
    ScoreIsBestLevel(a, b, maxStep, maxApart);
    ScoreIsBestLevel(b, a, maxStep, maxApart);
    forall k, l | 0 <= k < |a| && 0 <= l < |b|
      ensures Level(a[k], b[l], maxStep) == Level(b[l], a[k], maxStep)
    {
      LevelSymmetric(a[k], b[l], maxStep);
    }
    if Leads(a, b, maxStep, maxApart) && Carryover(b, a, maxStep, maxApart) > 0.0 {
      var l, k :| 0 <= l < |b| && 0 <= k < |a| && InReach(b[l], a[k], maxApart)
        && Level(b[l], a[k], maxStep) == Points(Carryover(b, a, maxStep, maxApart));
      assert Level(a[k], b[l], maxStep) == Level(b[l], a[k], maxStep);
    }
    if Carryover(a, b, maxStep, maxApart) > Carryover(b, a, maxStep, maxApart) {
      var i, j :| 0 <= i < |a| && 0 <= j < |b| && InReach(a[i], b[j], maxApart)
        && Level(a[i], b[j], maxStep) == Points(Carryover(a, b, maxStep, maxApart));
      assert LeadsWith(a, b, Level(a[i], b[j], maxStep), maxStep, maxApart);
    }
  }

  lemma LevelSymmetric(x: SeqSeen, y: SeqSeen, maxStep: int)
    ensures Level(x, y, maxStep) == Level(y, x, maxStep)
  {
  }

  /** Over whole histories the score depends on the order exactly when one side leads. */
  lemma CarryoverOrderFreeExactly(a: seq<SeqSeen>, b: seq<SeqSeen>, maxStep: int, maxApart: real)
    ensures Carryover(a, b, maxStep, maxApart) == Carryover(b, a, maxStep, maxApart) <==>
      !Leads(a, b, maxStep, maxApart) && !Leads(b, a, maxStep, maxApart)
  {
    LeadsExactly(a, b, maxStep, maxApart);
    LeadsExactly(b, a, maxStep, maxApart);
  }

  /** With the default limits, sightings that run backwards make the score depend on the order. */
  lemma BackwardsSightingMisjudged()
    ensures var x, y := SeqSeen(1000.0, 0.0, 7), SeqSeen(1500.0, 900.0, 8);
      Carryover([x], [y], 5, 600.0) == 0.0 && Carryover([y], [x], 5, 600.0) == 1.0
  {
    var x, y := SeqSeen(1000.0, 0.0, 7), SeqSeen(1500.0, 900.0, 8);
    assert InReach([y][0], [x][0], 600.0) && Step([y][0], [x][0]) == 1;
    assert !InReach(x, y, 600.0);
  }

  // ------------------------------------------------------------------ a verdict

  /** What the three signals read about one device. */
  datatype View = View(resolvable: bool, heard: Heard, windows: map<int, Window>, numbers: seq<SeqSeen>)

  datatype Limits = Limits(cohort: CohortParams, window: WindowParams, maxStep: int, maxApart: real)

  predicate ForwardsView(v: View) {
    (forall s :: s in v.windows ==> WellFormed(v.windows[s])) && Forwards(v.numbers)
  }

  ghost predicate CohortSays(a: View, b: View, l: Limits, r: Outcome) {
    if a.resolvable && b.resolvable && a.heard.Keys * b.heard.Keys != {}
    then CohortScored(a.heard, b.heard, l.cohort, r)
    else r == Unavailable
  }

  ghost function CarryoverSays(a: View, b: View, l: Limits): Outcome {
    if a.numbers == [] || b.numbers == [] then Abstains
    else Scores(Carryover(a.numbers, b.numbers, l.maxStep, l.maxApart))
  }

  /** `signals` holds what the three signals say of `a` and `b`; the others are given. */
  ghost predicate Says(a: View, b: View, l: Limits, others: Signals, signals: Signals) {
    exists cohort, window ::
      && CohortSays(a, b, l, cohort)
      && BestOf(PerSession(a.windows, b.windows, l.window), window)
      && signals == others["rotation_cohort" := cohort]["co_lifespan_match" := window]
                          ["continuity_seq_carryover" := CarryoverSays(a, b, l)]
  }

  /** Which device of a pair comes first does not change the verdict, when no recorded window runs backwards. */
  lemma PairVerdictIsSymmetric(profiles: map<string, Profile>, classA: string, classB: string, a: View, b: View,
                               l: Limits, others: Signals, ab: Signals, ba: Signals)
    requires ForwardsView(a) && ForwardsView(b) && l.window.maxGap >= 0.0 && l.window.nearGap >= 0.0
    requires Says(a, b, l, others, ab) && Says(b, a, l, others, ba)
    ensures Judge(PickProfile(profiles, classA, classB), ab) == Judge(PickProfile(profiles, classB, classA), ba)
  {
    var cohort, window :| CohortSays(a, b, l, cohort) && BestOf(PerSession(a.windows, b.windows, l.window), window)
      && ab == others["rotation_cohort" := cohort]["co_lifespan_match" := window]
                     ["continuity_seq_carryover" := CarryoverSays(a, b, l)];
    var cohort', window' :| CohortSays(b, a, l, cohort') && BestOf(PerSession(b.windows, a.windows, l.window), window')
      && ba == others["rotation_cohort" := cohort']["co_lifespan_match" := window']
                     ["continuity_seq_carryover" := CarryoverSays(b, a, l)];
    CohortAlike(a, b, l, cohort, cohort');
    SessionsSymmetric(a.windows, b.windows, l.window, window);
    BestIsUnique(PerSession(b.windows, a.windows, l.window), window, window');
    CarryoverSymmetric(a.numbers, b.numbers, l.maxStep, l.maxApart);
    assert ab == ba;
    VerdictIsSymmetric(profiles, classA, classB, ab, ba);
  }

  lemma CohortAlike(a: View, b: View, l: Limits, r: Outcome, s: Outcome)
    requires CohortSays(a, b, l, r) && CohortSays(b, a, l, s)
    ensures r == s
  {
    assert a.heard.Keys * b.heard.Keys == b.heard.Keys * a.heard.Keys;
    if a.resolvable && b.resolvable && a.heard.Keys * b.heard.Keys != {} {
      CohortSymmetric(a.heard, b.heard, l.cohort, r);
      if !exists k :: k in b.heard && k in a.heard && Concurrent(b.heard[k], a.heard[k], l.cohort.slack) {
        BestIsUnique(PerSniffer(b.heard, a.heard, l.cohort), r, s);
      }
    }
  }
}
