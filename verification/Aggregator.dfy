/** The pair-level aggregator: weights, required and decisive signals, and the verdict on one pair of devices. */
module Aggregator {
  import opened Wrappers
  import opened Reals

  /** What one signal says about a pair; a signal that raises while scoring counts as abstaining. */
  datatype Outcome = Unavailable | Abstains | Raised | Scores(score: real)

  datatype Profile = Profile(
    weights: seq<(string, real)>,
    threshold: real,
    minTotalWeight: real,
    requiredEventually: set<string>,
    requiredForMerge: set<string>,
    decisive: set<string>,
    decisiveThreshold: real,
    negativeBlock: real)

  datatype Contribution = Contribution(name: string, score: real, weight: real)

  datatype Abort = MissingRequired(names: seq<string>) | IrkMismatch

  datatype Verdict =
    | Decided(merge: bool, score: real, contributions: seq<Contribution>, abort: Option<Abort>)
    | CrossClass
    | MissingEventually(names: seq<string>)
    | TooLittleWeight

  type Signals = map<string, Outcome>

  function OutcomeOf(signals: Signals, name: string): Outcome {
    if name in signals then signals[name] else Unavailable
  }

  function Clamp(s: real): real {
    if s < -1.0 then -1.0 else if s > 1.0 then 1.0 else s
  }

  // ----------------------------------------------------------- accumulation

  function ContributionOf(entry: (string, real), signals: Signals): seq<Contribution> {
    match OutcomeOf(signals, entry.0)
    case Scores(s) => [Contribution(entry.0, Clamp(s), entry.1)]
    case _ => []
  }

  function Contributions(weights: seq<(string, real)>, signals: Signals): seq<Contribution> {
    if weights == [] then []
    else Contributions(weights[..|weights| - 1], signals) + ContributionOf(weights[|weights| - 1], signals)
  }

  /** Signals of `among`, in weight order, that gave no score, unless they are in `except`. */
  function Missing(
    weights: seq<(string, real)>, signals: Signals, among: set<string>, except: set<string>): seq<string> {
    if weights == [] then []
    else
      var name := weights[|weights| - 1].0;
      Missing(weights[..|weights| - 1], signals, among, except)
      + if name in among && name !in except && !OutcomeOf(signals, name).Scores? then [name] else []
  }

  function Product(c: Contribution): real {
    c.score * c.weight
  }

  function WeightedSum(cs: seq<Contribution>): real {
    if cs == [] then 0.0 else WeightedSum(cs[..|cs| - 1]) + Product(cs[|cs| - 1])
  }

  function TotalWeight(cs: seq<Contribution>): real {
    if cs == [] then 0.0 else TotalWeight(cs[..|cs| - 1]) + cs[|cs| - 1].weight
  }

  function Final(cs: seq<Contribution>): real {
    if TotalWeight(cs) != 0.0 then WeightedSum(cs) / TotalWeight(cs) else 0.0
  }

  predicate IsDecisive(p: Profile, c: Contribution) {
    c.name in p.decisive && c.score >= p.decisiveThreshold
  }

  /** Some decisive signal is strong enough and nothing contradicts it. */
  predicate DecidesAlone(p: Profile, cs: seq<Contribution>) {
    (exists c :: c in cs && IsDecisive(p, c)) && (forall c :: c in cs ==> c.score >= p.negativeBlock)
  }

  /** The highest decisive score. */
  function BestDecisive(p: Profile, cs: seq<Contribution>): Option<real> {
    if cs == [] then None
    else
      var before, c := BestDecisive(p, cs[..|cs| - 1]), cs[|cs| - 1];
      if IsDecisive(p, c) && (before.None? || c.score > before.value) then Some(c.score) else before
  }

  /** The verdict after the identity-key check has had no say. */
  function Weigh(p: Profile, signals: Signals): Verdict {
    var cs := Contributions(p.weights, signals);
    var forMerge := Missing(p.weights, signals, p.requiredForMerge, {});
    var eventually := Missing(p.weights, signals, p.requiredEventually, p.requiredForMerge);
    if forMerge != [] then Decided(false, 0.0, cs, Some(MissingRequired(forMerge)))
    else if DecidesAlone(p, cs) then Decided(true, BestDecisive(p, cs).GetOr(0.0), cs, None)
    else if eventually != [] then MissingEventually(eventually)
    else if TotalWeight(cs) < p.minTotalWeight then TooLittleWeight
    else Decided(Final(cs) >= p.threshold, Final(cs), cs, None)
  }

  const IRK := "irk_resolution"

  /** `cluster_pair_with_reason`; no profile covers both a class mismatch and an unknown class without default. */
  function Judge(p: Option<Profile>, signals: Signals): Verdict {
    if p.None? then CrossClass
    else match OutcomeOf(signals, IRK)
         case Scores(s) =>
           if s >= 0.999 then Decided(true, 1.0, [Contribution(IRK, 1.0, 1.0)], None)
           else if s <= -0.999 then Decided(false, -1.0, [Contribution(IRK, -1.0, 1.0)], Some(IrkMismatch))
           else Weigh(p.value, signals)
         case _ => Weigh(p.value, signals)
  }

  function PickProfile(profiles: map<string, Profile>, classA: string, classB: string): Option<Profile> {
    if classA != classB then None
    else if classA in profiles then Some(profiles[classA])
    else if "default" in profiles then Some(profiles["default"])
    else None
  }

  method ClusterPair(p: Option<Profile>, signals: Signals) returns (v: Verdict)
    ensures v == Judge(p, signals)
  {
    if p.None? {
      return CrossClass;
    }
    var irk := OutcomeOf(signals, IRK);
    if irk.Scores? && irk.score >= 0.999 {
      return Decided(true, 1.0, [Contribution(IRK, 1.0, 1.0)], None);
    }
    if irk.Scores? && irk.score <= -0.999 {
      return Decided(false, -1.0, [Contribution(IRK, -1.0, 1.0)], Some(IrkMismatch));
    }
    v := WeighPair(p.value, signals);
  }

  /** What one more weight adds to the contributions and to a list of missing signals. */
  lemma OneMore(weights: seq<(string, real)>, signals: Signals, among: set<string>, except: set<string>, i: nat)
    requires i < |weights|
    ensures Contributions(weights[..i + 1], signals)
         == Contributions(weights[..i], signals) + ContributionOf(weights[i], signals)
    ensures Missing(weights[..i + 1], signals, among, except)
         == Missing(weights[..i], signals, among, except)
            + if weights[i].0 in among && weights[i].0 !in except && !OutcomeOf(signals, weights[i].0).Scores?
              then [weights[i].0] else []
  {
    hide ContributionOf, OutcomeOf;
    assert weights[..i + 1][..i] == weights[..i];
  }

  lemma Nothing(signals: Signals, among: set<string>, except: set<string>)
    ensures Contributions([], signals) == [] && Missing([], signals, among, except) == []
    ensures WeightedSum([]) == 0.0 && TotalWeight([]) == 0.0
  {
  }

  lemma SumsSnoc(cs: seq<Contribution>, c: Contribution)
    ensures WeightedSum(cs + [c]) == WeightedSum(cs) + Product(c)
    ensures TotalWeight(cs + [c]) == TotalWeight(cs) + c.weight
  {
  }

  /** One pass over the weights: what scored, its sums, and the required signals that gave no score. */
  method Accumulate(p: Profile, signals: Signals)
    returns (
      cs: seq<Contribution>, weightedSum: real, totalWeight: real, forMerge: seq<string>, eventually: seq<string>)
    ensures cs == Contributions(p.weights, signals)
    ensures weightedSum == WeightedSum(cs) && totalWeight == TotalWeight(cs)
    ensures forMerge == Missing(p.weights, signals, p.requiredForMerge, {})
    ensures eventually == Missing(p.weights, signals, p.requiredEventually, p.requiredForMerge)
  {
    hide Clamp, OutcomeOf, Product, Contributions, Missing, WeightedSum, TotalWeight;
    Nothing(signals, p.requiredForMerge, {});
    Nothing(signals, p.requiredEventually, p.requiredForMerge);
    assert p.weights[..0] == [];
    cs, weightedSum, totalWeight, forMerge, eventually := [], 0.0, 0.0, [], [];
    for i := 0 to |p.weights|
      invariant cs == Contributions(p.weights[..i], signals)
      invariant weightedSum == WeightedSum(cs) && totalWeight == TotalWeight(cs)
      invariant forMerge == Missing(p.weights[..i], signals, p.requiredForMerge, {})
      invariant eventually == Missing(p.weights[..i], signals, p.requiredEventually, p.requiredForMerge)
    {
      OneMore(p.weights, signals, p.requiredForMerge, {}, i);
      OneMore(p.weights, signals, p.requiredEventually, p.requiredForMerge, i);
      var (name, weight) := p.weights[i];
      var outcome := OutcomeOf(signals, name);
      if outcome.Scores? {
        var c := Contribution(name, Clamp(outcome.score), weight);
        SumsSnoc(cs, c);
        weightedSum := weightedSum + Product(c);
        totalWeight := totalWeight + weight;
        cs := cs + [c];
      } else if name in p.requiredForMerge {
        forMerge := forMerge + [name];
      } else if name in p.requiredEventually {
        eventually := eventually + [name];
      }
    }
    assert p.weights[..|p.weights|] == p.weights;
  }

  method WeighPair(p: Profile, signals: Signals) returns (v: Verdict)
    ensures v == Weigh(p, signals)
  {
    hide Contributions, Missing, DecidesAlone, BestDecisive;
    var cs, weightedSum, totalWeight, forMerge, eventually := Accumulate(p, signals);
    if forMerge != [] {
      return Decided(false, 0.0, cs, Some(MissingRequired(forMerge)));
    }
    var best := DecisiveScan(p, cs);
    if best.Some? {
      return Decided(true, best.value, cs, None);
    }
    if eventually != [] {
      return MissingEventually(eventually);
    }
    if totalWeight < p.minTotalWeight {
      return TooLittleWeight;
    }
    var final := if totalWeight != 0.0 then weightedSum / totalWeight else 0.0;
    v := Decided(final >= p.threshold, final, cs, None);
  }

  /** The decisive short circuit: the best decisive score, unless some score is below the block. */
  method DecisiveScan(p: Profile, cs: seq<Contribution>) returns (best: Option<real>)
    ensures best == if DecidesAlone(p, cs) then BestDecisive(p, cs) else None
    ensures best.Some? <==> DecidesAlone(p, cs)
  {
    best := None;
    var worstOk := true;
    for i := 0 to |cs|
      invariant best == BestDecisive(p, cs[..i])
      invariant best.Some? <==> exists c :: c in cs[..i] && IsDecisive(p, c)
      invariant worstOk <==> forall c :: c in cs[..i] ==> c.score >= p.negativeBlock
    {
      assert cs[..i + 1][..i] == cs[..i] && cs[..i + 1] == cs[..i] + [cs[i]];
      if IsDecisive(p, cs[i]) && (best.None? || cs[i].score > best.value) { best := Some(cs[i].score); }
      worstOk := worstOk && cs[i].score >= p.negativeBlock;
    }
    assert cs[..|cs|] == cs;
    if !worstOk { best := None; }
  }

  // -------------------------------------------------------------- properties

  lemma {:induction false} BestDecisiveIs(p: Profile, cs: seq<Contribution>)
    ensures BestDecisive(p, cs).Some? <==> exists c :: c in cs && IsDecisive(p, c)
    ensures BestDecisive(p, cs).Some? ==>
      (exists c :: c in cs && IsDecisive(p, c) && c.score == BestDecisive(p, cs).value)
      && forall c :: c in cs && IsDecisive(p, c) ==> c.score <= BestDecisive(p, cs).value
  {
    if cs != [] {
      BestDecisiveIs(p, cs[..|cs| - 1]);
      assert forall c :: c in cs <==> c in cs[..|cs| - 1] || c == cs[|cs| - 1];
    }
  }

  /** A merge that the weighted mean does not support comes with no contribution below the block. */
  lemma UnsupportedMergeIsUncontradicted(p: Profile, signals: Signals)
    requires var v := Judge(Some(p), signals);
      v.Decided? && v.merge && v.contributions == Contributions(p.weights, signals)
    requires !(OutcomeOf(signals, IRK).Scores? && OutcomeOf(signals, IRK).score >= 0.999)
    requires var cs := Contributions(p.weights, signals); TotalWeight(cs) < p.minTotalWeight || Final(cs) < p.threshold
    ensures var v := Judge(Some(p), signals);
      && (forall c :: c in v.contributions ==> c.score >= p.negativeBlock)
      && (exists c :: c in v.contributions && IsDecisive(p, c) && c.score == v.score)
      && (forall c :: c in v.contributions && IsDecisive(p, c) ==> c.score <= v.score)
  {
    hide Contributions, WeightedSum, TotalWeight, IsDecisive, Missing, BestDecisive;
    BestDecisiveIs(p, Contributions(p.weights, signals));
  }

  lemma {:induction false} ContributionsClamped(weights: seq<(string, real)>, signals: Signals)
    ensures forall c :: c in Contributions(weights, signals) ==> -1.0 <= c.score <= 1.0
    ensures (forall e :: e in weights ==> e.1 >= 0.0) ==>
      forall c :: c in Contributions(weights, signals) ==> c.weight >= 0.0
  {
    if weights != [] {
      ContributionsClamped(weights[..|weights| - 1], signals);
      assert weights[|weights| - 1] in weights;
    }
  }

  lemma {:induction false} MeanBetween(cs: seq<Contribution>, lo: real, hi: real)
    requires forall c :: c in cs ==> c.weight >= 0.0 && lo <= c.score <= hi
    ensures TotalWeight(cs) >= 0.0
    ensures lo * TotalWeight(cs) <= WeightedSum(cs) <= hi * TotalWeight(cs)
  {
    hide Product;
    if cs != [] {
      var pre, c := cs[..|cs| - 1], cs[|cs| - 1];
      assert c in cs;
      MeanBetween(pre, lo, hi);
      ProductBetween(c, lo, hi);
      Distribute(lo, TotalWeight(pre), c.weight);
      Distribute(hi, TotalWeight(pre), c.weight);
    }
  }

  lemma ProductBetween(c: Contribution, lo: real, hi: real)
    requires c.weight >= 0.0 && lo <= c.score <= hi
    ensures lo * c.weight <= Product(c) <= hi * c.weight
  {
  }

  /**
   With weights that are not negative, the final score is zero when no weight has spoken; otherwise it lies between
   the least and greatest contribution. It is always in [-1, 1].
   */
  lemma ScoreIsMean(p: Profile, signals: Signals, lo: real, hi: real)
    requires forall e :: e in p.weights ==> e.1 >= 0.0
    requires forall c :: c in Contributions(p.weights, signals) ==> lo <= c.score <= hi
    ensures var cs := Contributions(p.weights, signals);
      && TotalWeight(cs) >= 0.0 && -1.0 <= Final(cs) <= 1.0
      && (TotalWeight(cs) == 0.0 ==> Final(cs) == 0.0) && (TotalWeight(cs) > 0.0 ==> lo <= Final(cs) <= hi)
  {
    hide Contributions, WeightedSum, TotalWeight;
    var cs := Contributions(p.weights, signals);
    ContributionsClamped(p.weights, signals);
    MeanBetween(cs, lo, hi);
    MeanBetween(cs, -1.0, 1.0);
    if TotalWeight(cs) > 0.0 {
      DivideBound(lo, WeightedSum(cs), hi, TotalWeight(cs));
      DivideBound(-1.0, WeightedSum(cs), 1.0, TotalWeight(cs));
    }
  }

  // ------------------------------------------------------------ order of weights

  /** Where the last element of one list stands in another list of the same elements; the rest agree as well. */
  lemma Counterpart<T>(v: seq<T>, w: seq<T>) returns (k: nat)
    requires v != [] && multiset(v) == multiset(w)
    ensures k < |w| && w[k] == v[|v| - 1]
    ensures multiset(v[..|v| - 1]) == multiset(Without(w, k))
  {
    hide Without;
    var n := |v| - 1;
    SameMembers(v, w);
    assert v[n] in w;
    k :| 0 <= k < |w| && w[k] == v[n];
    TakenOut(v, n);
    TakenOut(w, k);
    WithoutLast(v, n);
  }

  lemma TakenOut<T>(s: seq<T>, k: nat)
    requires k < |s|
    ensures multiset(Without(s, k)) == multiset(s) - multiset{s[k]}
  {
    assert s == s[..k] + [s[k]] + s[k + 1..];
  }

  function Without<T>(s: seq<T>, k: nat): seq<T>
    requires k < |s|
  {
    s[..k] + s[k + 1..]
  }

  lemma WithoutLast<T>(s: seq<T>, k: nat)
    requires k < |s|
    ensures k == |s| - 1 ==> Without(s, k) == s[..|s| - 1]
    ensures k < |s| - 1 ==>
      var r := Without(s, k); r != [] && r[..|r| - 1] == Without(s[..|s| - 1], k) && r[|r| - 1] == s[|s| - 1]
  {
  }

  lemma {:induction false} ContributionsWithout(weights: seq<(string, real)>, signals: Signals, k: nat)
    requires k < |weights|
    ensures multiset(Contributions(weights, signals))
         == multiset(Contributions(Without(weights, k), signals)) + multiset(ContributionOf(weights[k], signals))
    decreases |weights|
  {
    hide ContributionOf, Without;
    WithoutLast(weights, k);
    if k < |weights| - 1 {
      ContributionsWithout(weights[..|weights| - 1], signals, k);
    }
  }

  lemma {:induction false} ContributionsPermute(v: seq<(string, real)>, w: seq<(string, real)>, signals: Signals)
    requires multiset(v) == multiset(w)
    ensures multiset(Contributions(v, signals)) == multiset(Contributions(w, signals))
    decreases |v|
  {
    hide ContributionOf, Without;
    if v == [] {
      assert |multiset(w)| == 0;
    } else {
      var k := Counterpart(v, w);
      ContributionsPermute(v[..|v| - 1], Without(w, k), signals);
      ContributionsWithout(w, signals, k);
    }
  }

  lemma {:induction false} SumsWithout(cs: seq<Contribution>, k: nat)
    requires k < |cs|
    ensures WeightedSum(cs) == WeightedSum(Without(cs, k)) + Product(cs[k])
    ensures TotalWeight(cs) == TotalWeight(Without(cs, k)) + cs[k].weight
    decreases |cs|
  {
    hide Product, Without;
    WithoutLast(cs, k);
    if k < |cs| - 1 {
      SumsWithout(cs[..|cs| - 1], k);
    }
  }

  lemma {:induction false} SumsPermute(cs: seq<Contribution>, ds: seq<Contribution>)
    requires multiset(cs) == multiset(ds)
    ensures WeightedSum(cs) == WeightedSum(ds) && TotalWeight(cs) == TotalWeight(ds)
    decreases |cs|
  {
    hide Product, Without;
    if cs == [] {
      assert |multiset(ds)| == 0;
    } else {
      var k := Counterpart(cs, ds);
      SumsPermute(cs[..|cs| - 1], Without(ds, k));
      SumsWithout(ds, k);
    }
  }

  predicate Lists(weights: seq<(string, real)>, name: string) {
    exists i :: 0 <= i < |weights| && weights[i].0 == name
  }

  lemma {:induction false} MissingNames(
    weights: seq<(string, real)>, signals: Signals, among: set<string>, except: set<string>, name: string)
    ensures name in Missing(weights, signals, among, except) <==>
      name in among && name !in except && !OutcomeOf(signals, name).Scores? && Lists(weights, name)
  {
    hide OutcomeOf;
    if weights != [] {
      var n := |weights| - 1;
      MissingNames(weights[..n], signals, among, except, name);
      assert Lists(weights, name) <==> Lists(weights[..n], name) || weights[n].0 == name;
    }
  }

  lemma SameLists(v: seq<(string, real)>, w: seq<(string, real)>, name: string)
    requires multiset(v) == multiset(w)
    ensures Lists(v, name) ==> Lists(w, name)
  {
    if Lists(v, name) {
      var i :| 0 <= i < |v| && v[i].0 == name;
      assert v[i] in multiset(w);
    }
  }

  lemma SameMissing(
    v: seq<(string, real)>, w: seq<(string, real)>, signals: Signals, among: set<string>, except: set<string>)
    requires multiset(v) == multiset(w)
    ensures Missing(v, signals, among, except) == [] <==> Missing(w, signals, among, except) == []
  {
    forall name: string
      ensures name in Missing(v, signals, among, except) <==> name in Missing(w, signals, among, except)
    {
      MissingNames(v, signals, among, except, name);
      MissingNames(w, signals, among, except, name);
      SameLists(v, w, name);
      SameLists(w, v, name);
    }
    var ms, ns := Missing(v, signals, among, except), Missing(w, signals, among, except);
    if ms != [] { assert ms[0] in ns; }
    if ns != [] { assert ns[0] in ms; }
  }

  /** What a caller acts on: whether there is a decision, and if so which and with what score. */
  function Outcome3(v: Verdict): Option<(bool, real)> {
    if v.Decided? then Some((v.merge, v.score)) else None
  }

  lemma SameMembers<T>(a: seq<T>, b: seq<T>)
    requires multiset(a) == multiset(b)
    ensures forall x :: x in a <==> x in b
  {
    forall x
      ensures x in a <==> x in b
    {
      assert x in a <==> x in multiset(a);
      assert x in b <==> x in multiset(b);
    }
  }

  /** More contributions, no lower best. */
  lemma BestAtMost(p: Profile, cs: seq<Contribution>, ds: seq<Contribution>)
    requires forall c :: c in cs ==> c in ds
    ensures BestDecisive(p, cs).Some? ==>
      BestDecisive(p, ds).Some? && BestDecisive(p, cs).value <= BestDecisive(p, ds).value
  {
    hide IsDecisive, BestDecisive;
    BestDecisiveIs(p, cs);
    BestDecisiveIs(p, ds);
  }

  lemma SameDecisive(p: Profile, cs: seq<Contribution>, ds: seq<Contribution>)
    requires multiset(cs) == multiset(ds)
    ensures DecidesAlone(p, cs) == DecidesAlone(p, ds) && BestDecisive(p, cs) == BestDecisive(p, ds)
  {
    hide IsDecisive, BestDecisive;
    SameMembers(cs, ds);
    BestAtMost(p, cs, ds);
    BestAtMost(p, ds, cs);
  }

  /** The order in which a profile lists its weights changes neither the decision nor the score. */
  lemma WeightOrderFree(p: Profile, weights: seq<(string, real)>, signals: Signals)
    requires multiset(weights) == multiset(p.weights)
    ensures Outcome3(Judge(Some(p), signals)) == Outcome3(Judge(Some(p.(weights := weights)), signals))
  {
    hide BestDecisive, DecidesAlone, Missing, Contributions, WeightedSum, TotalWeight;
    ContributionsPermute(p.weights, weights, signals);
    var cs, ds := Contributions(p.weights, signals), Contributions(weights, signals);
    SumsPermute(cs, ds);
    SameDecisive(p, cs, ds);
    SameDecisiveProfile(p, weights, ds);
    SameMissing(p.weights, weights, signals, p.requiredForMerge, {});
    SameMissing(p.weights, weights, signals, p.requiredEventually, p.requiredForMerge);
  }

  lemma {:induction false} SameDecisiveProfile(p: Profile, weights: seq<(string, real)>, cs: seq<Contribution>)
    ensures DecidesAlone(p, cs) == DecidesAlone(p.(weights := weights), cs)
    ensures BestDecisive(p, cs) == BestDecisive(p.(weights := weights), cs)
    decreases |cs|
  {
    if cs != [] { SameDecisiveProfile(p, weights, cs[..|cs| - 1]); }
  }

  /** Signals that judge a pair alike from both sides give the same verdict from both sides. */
  lemma VerdictIsSymmetric(profiles: map<string, Profile>, classA: string, classB: string, ab: Signals, ba: Signals)
    requires forall name :: OutcomeOf(ab, name) == OutcomeOf(ba, name)
    ensures Judge(PickProfile(profiles, classA, classB), ab) == Judge(PickProfile(profiles, classB, classA), ba)
    ensures classA != classB ==> Judge(PickProfile(profiles, classA, classB), ab) == CrossClass
  {
    hide Weigh;
    var p := PickProfile(profiles, classA, classB);
    if p.Some? {
      SameSignals(p.value, ab, ba);
    }
  }

  lemma SameSignals(p: Profile, ab: Signals, ba: Signals)
    requires forall name :: OutcomeOf(ab, name) == OutcomeOf(ba, name)
    ensures Weigh(p, ab) == Weigh(p, ba)
  {
    SameContributions(p.weights, ab, ba);
    SameMissingNames(p.weights, ab, ba, p.requiredForMerge, {});
    SameMissingNames(p.weights, ab, ba, p.requiredEventually, p.requiredForMerge);
  }

  lemma {:induction false} SameContributions(weights: seq<(string, real)>, ab: Signals, ba: Signals)
    requires forall name :: OutcomeOf(ab, name) == OutcomeOf(ba, name)
    ensures Contributions(weights, ab) == Contributions(weights, ba)
  {
    if weights != [] { SameContributions(weights[..|weights| - 1], ab, ba); }
  }

  lemma {:induction false} SameMissingNames(
    weights: seq<(string, real)>, ab: Signals, ba: Signals, among: set<string>, except: set<string>)
    requires forall name :: OutcomeOf(ab, name) == OutcomeOf(ba, name)
    ensures Missing(weights, ab, among, except) == Missing(weights, ba, among, except)
  {
    if weights != [] { SameMissingNames(weights[..|weights| - 1], ab, ba, among, except); }
  }

  // ------------------------------------------------------------ when it merges

  predicate Speaks(signals: Signals, name: string) {
    OutcomeOf(signals, name).Scores?
  }

  function ClampedScore(signals: Signals, name: string): real {
    match OutcomeOf(signals, name)
    case Scores(s) => Clamp(s)
    case _ => 0.0
  }

  /** The weight of the signals that speak, and their scores times their weights. */
  function SpokenWeight(weights: seq<(string, real)>, signals: Signals): real {
    if weights == [] then 0.0
    else
      var e := weights[|weights| - 1];
      SpokenWeight(weights[..|weights| - 1], signals) + if Speaks(signals, e.0) then e.1 else 0.0
  }

  function SpokenSum(weights: seq<(string, real)>, signals: Signals): real {
    if weights == [] then 0.0
    else
      var e := weights[|weights| - 1];
      SpokenSum(weights[..|weights| - 1], signals)
      + if Speaks(signals, e.0) then ClampedScore(signals, e.0) * e.1 else 0.0
  }

  /** Every listed signal among these names speaks. */
  predicate AllSpeak(weights: seq<(string, real)>, signals: Signals, among: set<string>) {
    forall e :: e in weights && e.0 in among ==> Speaks(signals, e.0)
  }

  /** A listed decisive signal speaks up, and no listed signal that speaks is below the block. */
  predicate OneDecides(p: Profile, signals: Signals) {
    && (exists e ::
          && e in p.weights && e.0 in p.decisive && Speaks(signals, e.0)
          && ClampedScore(signals, e.0) >= p.decisiveThreshold)
    && (forall e :: e in p.weights && Speaks(signals, e.0) ==> ClampedScore(signals, e.0) >= p.negativeBlock)
  }

  /** The mean `sum / total` reaches the threshold, the mean of no weight being zero. */
  predicate MeanReaches(sum: real, total: real, threshold: real) {
    if total > 0.0 then sum >= threshold * total
    else if total == 0.0 then threshold <= 0.0
    else sum <= threshold * total
  }

  lemma {:induction false} SpokenSums(weights: seq<(string, real)>, signals: Signals)
    ensures SpokenWeight(weights, signals) == TotalWeight(Contributions(weights, signals))
    ensures SpokenSum(weights, signals) == WeightedSum(Contributions(weights, signals))
  {
    hide Clamp, WeightedSum, TotalWeight;
    Nothing(signals, {}, {});
    if weights != [] {
      var pre, e := weights[..|weights| - 1], weights[|weights| - 1];
      SpokenSums(pre, signals);
      if Speaks(signals, e.0) {
        SumsSnoc(Contributions(pre, signals), Contribution(e.0, ClampedScore(signals, e.0), e.1));
      } else {
        assert Contributions(weights, signals) == Contributions(pre, signals);
      }
    }
  }

  /** The contributions are the listed signals that speak. */
  lemma {:induction false} ContributionsSpeak(weights: seq<(string, real)>, signals: Signals)
    ensures forall e :: e in weights && Speaks(signals, e.0) ==>
      Contribution(e.0, ClampedScore(signals, e.0), e.1) in Contributions(weights, signals)
    ensures forall c :: c in Contributions(weights, signals) ==>
      (c.name, c.weight) in weights && Speaks(signals, c.name) && c.score == ClampedScore(signals, c.name)
  {
    hide Clamp;
    if weights != [] {
      var pre, e := weights[..|weights| - 1], weights[|weights| - 1];
      ContributionsSpeak(pre, signals);
      assert forall f :: f in weights <==> f in pre || f == e;
      assert forall c :: c in Contributions(weights, signals) <==>
        c in Contributions(pre, signals) || c in ContributionOf(e, signals);
    }
  }

  lemma DecidesByOne(p: Profile, signals: Signals)
    ensures DecidesAlone(p, Contributions(p.weights, signals)) <==> OneDecides(p, signals)
  {
    hide Contributions, ClampedScore, Speaks;
    var cs := Contributions(p.weights, signals);
    ContributionsSpeak(p.weights, signals);
    forall e | e in p.weights && Speaks(signals, e.0)
      ensures Contribution(e.0, ClampedScore(signals, e.0), e.1) in cs
    {
    }
    if OneDecides(p, signals) {
      var e :| e in p.weights && e.0 in p.decisive && Speaks(signals, e.0)
        && ClampedScore(signals, e.0) >= p.decisiveThreshold;
      assert IsDecisive(p, Contribution(e.0, ClampedScore(signals, e.0), e.1));
    }
    if DecidesAlone(p, cs) {
      var c :| c in cs && IsDecisive(p, c);
      assert (c.name, c.weight) in p.weights;
    }
  }

  lemma NoneMissing(weights: seq<(string, real)>, signals: Signals, among: set<string>, except: set<string>)
    ensures Missing(weights, signals, among, except) == [] <==> AllSpeak(weights, signals, among - except)
  {
    hide Missing, OutcomeOf;
    var names := Missing(weights, signals, among, except);
    if names != [] {
      MissingNames(weights, signals, among, except, names[0]);
      var i :| 0 <= i < |weights| && weights[i].0 == names[0];
      assert weights[i] in weights && !Speaks(signals, weights[i].0);
    }
    if names == [] {
      forall e | e in weights && e.0 in among - except
        ensures Speaks(signals, e.0)
      {
        MissingNames(weights, signals, among, except, e.0);
        assert e.0 !in names;
        var i :| 0 <= i < |weights| && weights[i] == e;
        assert Lists(weights, e.0);
      }
    }
  }

  lemma MeanReachesThreshold(sum: real, total: real, threshold: real)
    ensures (if total != 0.0 then sum / total else 0.0) >= threshold <==> MeanReaches(sum, total, threshold)
  {
    if total != 0.0 {
      MultiplyBack(sum, total);
      var q := sum / total;
      if total > 0.0 {
        if q >= threshold { Spread(threshold, q, total); } else { StrictSpread(q, threshold, total); }
      } else {
        if q >= threshold { Spread(threshold, q, -total); } else { StrictSpread(q, threshold, -total); }
      }
    }
  }

  /**
   When the aggregator merges: the identity key says so; or it does not object, every listed signal required for a
   merge speaks, and either one signal decides, or every signal required eventually speaks too and enough weight
   has a mean that reaches the threshold.
   */
  lemma MergesExactly(p: Profile, signals: Signals)
    ensures var v, irk := Judge(Some(p), signals), OutcomeOf(signals, IRK);
      (v.Decided? && v.merge) <==>
        || (irk.Scores? && irk.score >= 0.999)
        || (&& !(irk.Scores? && irk.score <= -0.999)
            && AllSpeak(p.weights, signals, p.requiredForMerge)
            && (|| OneDecides(p, signals)
                || (&& AllSpeak(p.weights, signals, p.requiredEventually)
                    && SpokenWeight(p.weights, signals) >= p.minTotalWeight
                    && MeanReaches(SpokenSum(p.weights, signals), SpokenWeight(p.weights, signals), p.threshold))))
  {
    hide Contributions, Missing, DecidesAlone, WeightedSum, TotalWeight, BestDecisive, SpokenSum, SpokenWeight,
         OneDecides, MeanReaches, Speaks;
    SpokenSums(p.weights, signals);
    DecidesByOne(p, signals);
    NoneMissing(p.weights, signals, p.requiredForMerge, {});
    NoneMissing(p.weights, signals, p.requiredEventually, p.requiredForMerge);
    assert p.requiredForMerge - {} == p.requiredForMerge;
    MeanReachesThreshold(SpokenSum(p.weights, signals), SpokenWeight(p.weights, signals), p.threshold);
    assert AllSpeak(p.weights, signals, p.requiredForMerge) ==>
      (AllSpeak(p.weights, signals, p.requiredEventually - p.requiredForMerge) <==>
        AllSpeak(p.weights, signals, p.requiredEventually));
  }
}
