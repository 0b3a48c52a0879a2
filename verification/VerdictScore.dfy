/** The verdict on a pair, case by case, in terms of the listed signals and what they say. */
module VerdictScore {
  import opened Wrappers
  import opened Reals
  import opened Aggregator

  /** A score counts as it is within [-1, 1] and as the nearer bound outside. */
  lemma ClampedIs(signals: Signals, name: string)
    requires Speaks(signals, name)
    ensures var s, r := OutcomeOf(signals, name).score, ClampedScore(signals, name);
      && -1.0 <= r <= 1.0 && (-1.0 <= s <= 1.0 ==> r == s) && (s > 1.0 ==> r == 1.0) && (s < -1.0 ==> r == -1.0)
  {
  }

  /** The identity key decides alone and outright, one way or the other. */
  lemma KeyDecides(p: Profile, signals: Signals)
    ensures var v, irk := Judge(Some(p), signals), OutcomeOf(signals, "irk_resolution");
      && (irk.Scores? && irk.score >= 0.999 ==>
            v == Decided(true, 1.0, [Contribution("irk_resolution", 1.0, 1.0)], None))
      && (irk.Scores? && irk.score <= -0.999 ==>
            v == Decided(false, -1.0, [Contribution("irk_resolution", -1.0, 1.0)], Some(IrkMismatch)))
  {
  }

  /** The identity key has no say: it does not speak, or not clearly. */
  predicate KeySilent(signals: Signals) {
    var irk := OutcomeOf(signals, "irk_resolution");
    irk.Scores? ==> -0.999 < irk.score < 0.999
  }

  /** The listed signals of `among` that do not speak, except some. */
  ghost predicate Silent(names: seq<string>, p: Profile, signals: Signals, among: set<string>, except: set<string>) {
    forall name ::
      name in names <==> name in among && name !in except && Lists(p.weights, name) && !Speaks(signals, name)
  }

  /** A score that the strongest of the decisive signals that speak up has given. */
  ghost predicate StrongestDecisive(p: Profile, signals: Signals, score: real) {
    && (exists e :: e in p.weights && Strong(p, signals, e.0) && ClampedScore(signals, e.0) == score)
    && (forall e :: e in p.weights && Strong(p, signals, e.0) ==> ClampedScore(signals, e.0) <= score)
  }

  predicate Strong(p: Profile, signals: Signals, name: string) {
    name in p.decisive && Speaks(signals, name) && ClampedScore(signals, name) >= p.decisiveThreshold
  }

  lemma SilentNames(p: Profile, signals: Signals, among: set<string>, except: set<string>)
    ensures Silent(Missing(p.weights, signals, among, except), p, signals, among, except)
  {
    hide Missing, OutcomeOf, Lists;
    forall name: string
      ensures name in Missing(p.weights, signals, among, except) <==>
        name in among && name !in except && Lists(p.weights, name) && !Speaks(signals, name)
    {
      MissingNames(p.weights, signals, among, except, name);
    }
  }

  lemma BestIsStrongest(p: Profile, signals: Signals)
    requires OneDecides(p, signals)
    ensures var best := BestDecisive(p, Contributions(p.weights, signals));
      best.Some? && StrongestDecisive(p, signals, best.value)
  {
    hide Contributions, BestDecisive, ClampedScore, Speaks;
    var cs := Contributions(p.weights, signals);
    BestDecisiveIs(p, cs);
    DecidesByOne(p, signals);
    ContributionsSpeak(p.weights, signals);
    var best := BestDecisive(p, cs);
    var c :| c in cs && IsDecisive(p, c) && c.score == best.value;
    assert (c.name, c.weight) in p.weights && Strong(p, signals, c.name);
    forall e | e in p.weights && Strong(p, signals, e.0)
      ensures ClampedScore(signals, e.0) <= best.value
    {
      assert IsDecisive(p, Contribution(e.0, ClampedScore(signals, e.0), e.1));
    }
  }

  /**
   Where the identity key has no say: a signal required for a merge that is silent rejects with score zero; a decisive
   signal merges with the strongest decisive score; one required eventually that is silent, or too little weight, leaves
   the pair open; otherwise the mean decides, and the score is that mean, the mean of no weight being zero.
   */
  lemma VerdictExactly(p: Profile, signals: Signals)
    requires KeySilent(signals)
    ensures var v := Judge(Some(p), signals);
      var total, sum := SpokenWeight(p.weights, signals), SpokenSum(p.weights, signals);
      if !AllSpeak(p.weights, signals, p.requiredForMerge) then
        && v.Decided? && !v.merge && v.score == 0.0 && v.abort.Some? && v.abort.value.MissingRequired?
        && Silent(v.abort.value.names, p, signals, p.requiredForMerge, {})
      else if OneDecides(p, signals) then
        v.Decided? && v.merge && v.abort == None && StrongestDecisive(p, signals, v.score)
      else if !AllSpeak(p.weights, signals, p.requiredEventually) then
        v.MissingEventually? && Silent(v.names, p, signals, p.requiredEventually, p.requiredForMerge)
      else if total < p.minTotalWeight then v.TooLittleWeight?
      else
        && v.Decided? && v.abort == None && (v.merge <==> v.score >= p.threshold)
        && (total != 0.0 ==> v.score * total == sum) && (total == 0.0 ==> v.score == 0.0)
  {
    hide Contributions, Missing, DecidesAlone, BestDecisive, WeightedSum, TotalWeight, SpokenSum, SpokenWeight, Silent,
         OneDecides, StrongestDecisive, Speaks;
    var total, sum := SpokenWeight(p.weights, signals), SpokenSum(p.weights, signals);
    SpokenSums(p.weights, signals);
    DecidesByOne(p, signals);
    if OneDecides(p, signals) { BestIsStrongest(p, signals); }
    SilentNames(p, signals, p.requiredForMerge, {});
    SilentNames(p, signals, p.requiredEventually, p.requiredForMerge);
    NoneMissing(p.weights, signals, p.requiredForMerge, {});
    NoneMissing(p.weights, signals, p.requiredEventually, p.requiredForMerge);
    assert p.requiredForMerge - {} == p.requiredForMerge;
    assert AllSpeak(p.weights, signals, p.requiredForMerge) ==>
      (AllSpeak(p.weights, signals, p.requiredEventually - p.requiredForMerge) <==>
        AllSpeak(p.weights, signals, p.requiredEventually));
    if total != 0.0 { MultiplyBack(sum, total); }
  }

  /** With weights that are not negative the score of a verdict is in [-1, 1], and a mean lies between what it is of. */
  lemma VerdictInRange(p: Profile, signals: Signals, lo: real, hi: real)
    requires forall e :: e in p.weights ==> e.1 >= 0.0
    requires forall e :: e in p.weights && Speaks(signals, e.0) ==> lo <= ClampedScore(signals, e.0) <= hi
    ensures var v := Judge(Some(p), signals);
      && (v.Decided? ==> -1.0 <= v.score <= 1.0)
      && (v.Decided? && KeySilent(signals) && AllSpeak(p.weights, signals, p.requiredForMerge) ==>
            SpokenWeight(p.weights, signals) > 0.0 ==> lo <= v.score <= hi)
  {
    hide Contributions, Missing, DecidesAlone, BestDecisive, WeightedSum, TotalWeight, SpokenSum, SpokenWeight, Speaks,
         ClampedScore, Strong;
    var cs := Contributions(p.weights, signals);
    ContributionsSpeak(p.weights, signals);
    SpokenSums(p.weights, signals);
    ScoreIsMean(p, signals, lo, hi);
    NoneMissing(p.weights, signals, p.requiredForMerge, {});
    assert p.requiredForMerge - {} == p.requiredForMerge;
    DecidesByOne(p, signals);
    if OneDecides(p, signals) {
      BestIsStrongest(p, signals);
      var e :| e in p.weights && Strong(p, signals, e.0) && ClampedScore(signals, e.0) == BestDecisive(p, cs).value;
      StrongSpeaks(p, signals, e.0);
      ClampedIs(signals, e.0);
    }
  }

  lemma StrongSpeaks(p: Profile, signals: Signals, name: string)
    requires Strong(p, signals, name)
    ensures Speaks(signals, name)
  {
  }

  /** How many of the listed weights have a signal that speaks. */
  function SpeakingCount(weights: seq<(string, real)>, signals: Signals): nat {
    if weights == [] then 0
    else
      SpeakingCount(weights[..|weights| - 1], signals) + if Speaks(signals, weights[|weights| - 1].0) then 1 else 0
  }

  lemma {:induction false} ContributionsCount(weights: seq<(string, real)>, signals: Signals)
    ensures |Contributions(weights, signals)| == SpeakingCount(weights, signals)
  {
    if weights != [] { ContributionsCount(weights[..|weights| - 1], signals); }
  }

  /** A verdict carries exactly what each listed signal that speaks has said, with the weight it is listed under. */
  lemma VerdictListsSignals(p: Profile, signals: Signals)
    requires KeySilent(signals)
    ensures var v := Judge(Some(p), signals); v.Decided? ==>
      && |v.contributions| == SpeakingCount(p.weights, signals)
      && (forall e :: e in p.weights && Speaks(signals, e.0) ==>
            Contribution(e.0, ClampedScore(signals, e.0), e.1) in v.contributions)
      && (forall c :: c in v.contributions ==>
            (c.name, c.weight) in p.weights && Speaks(signals, c.name) && c.score == ClampedScore(signals, c.name))
  {
    hide Contributions, Missing, DecidesAlone, BestDecisive, WeightedSum, TotalWeight, Speaks, ClampedScore;
    ContributionsSpeak(p.weights, signals);
    ContributionsCount(p.weights, signals);
  }

  /** Two devices of a class are judged by the profile of that class, else by the default one, else not at all. */
  lemma ProfileOfClass(profiles: map<string, Profile>, cls: string, signals: Signals)
    ensures var v := Judge(PickProfile(profiles, cls, cls), signals);
      && (cls in profiles ==> v == Judge(Some(profiles[cls]), signals))
      && (cls !in profiles && "default" in profiles ==> v == Judge(Some(profiles["default"]), signals))
      && (v == CrossClass <==> cls !in profiles && "default" !in profiles)
  {
    hide Weigh;
    WeighIsNotCross(PickProfile(profiles, cls, cls), signals);
  }

  lemma WeighIsNotCross(p: Option<Profile>, signals: Signals)
    ensures Judge(p, signals) == CrossClass <==> p.None?
  {
  }
}
