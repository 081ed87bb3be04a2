/** The weighted-overlap match score of a patient's codes against one profile
    (backend/disease_analyzer.py, `calculate_symptom_match_score`). Arithmetic is exact. */
module Scoring {

  import opened Wrappers
  import opened Seqs
  import opened Symptoms
  import opened Profiles

  /** Python raises ZeroDivisionError for a profile with no symptoms at all. */
  datatype ScoreError = ZeroDivision

  const PrimaryWeight: real := 3.0
  const SecondaryWeight: real := 1.5
  const SeverityMultiplier: real := 1.2
  /** Scores at or below this are reported as exactly this value. */
  const ScoreFloor: real := 20.0

  /** 3.0 for each distinct patient code among the primary symptoms. */
  function PrimaryScore(patient: seq<Code>, profile: DiseaseProfile): real
  {
    |Elems(patient) * Elems(profile.primarySymptoms)| as real * PrimaryWeight
  }

  /** 1.5 for each distinct patient code among the secondary symptoms. */
  function SecondaryScore(patient: seq<Code>, profile: DiseaseProfile): real
  {
    |Elems(patient) * Elems(profile.secondarySymptoms)| as real * SecondaryWeight
  }

  /** weight * 1.2 for each weighted code of the patient LIST, repetitions included. */
  function SeverityScore(patient: seq<Code>, weights: map<Code, real>): (bonus: real)
    ensures (forall c :: c in patient ==> c !in weights) ==> bonus == 0.0
  {
    if patient == [] then 0.0
    else
      (if patient[0] in weights then weights[patient[0]] * SeverityMultiplier else 0.0)
      + SeverityScore(patient[1..], weights)
  }

  /** The denominator: list lengths of the two symptom lists; severity is left out. */
  function TotalPossibleScore(profile: DiseaseProfile): (total: real)
    ensures total >= 0.0
    ensures total == 0.0 <==> !HasSymptoms(profile)
  {
    |profile.primarySymptoms| as real * PrimaryWeight + |profile.secondarySymptoms| as real * SecondaryWeight
  }

  function ActualScore(patient: seq<Code>, profile: DiseaseProfile): real
  {
    PrimaryScore(patient, profile) + SecondaryScore(patient, profile)
    + SeverityScore(patient, profile.severityWeights)
  }

  /** The raw percentage before the floor is applied. */
  function RawConfidence(patient: seq<Code>, profile: DiseaseProfile): real
    requires TotalPossibleScore(profile) != 0.0
  {
    ActualScore(patient, profile) / TotalPossibleScore(profile) * 100.0
  }

  /** A profile with at least one symptom, so that its denominator is not zero. */
  predicate HasSymptoms(profile: DiseaseProfile)
  {
    profile.primarySymptoms != [] || profile.secondarySymptoms != []
  }

  /** The match score: the raw percentage, floored to 20; a profile without any symptom fails. */
  function CalculateSymptomMatchScore(patient: seq<Code>, profile: DiseaseProfile): (r: Result<real, ScoreError>)
    ensures r.Failure? <==> !HasSymptoms(profile)
    ensures r.Success? ==> r.value >= ScoreFloor && r.value >= RawConfidence(patient, profile)
    ensures r.Success? && RawConfidence(patient, profile) <= ScoreFloor ==> r.value == ScoreFloor
    ensures r.Success? && RawConfidence(patient, profile) > ScoreFloor ==> r.value == RawConfidence(patient, profile)
  {
    var total := TotalPossibleScore(profile);
    if total == 0.0 then Failure(ZeroDivision)
    else
      var confidence := ActualScore(patient, profile) / total * 100.0;
      Success(if confidence > ScoreFloor then confidence else ScoreFloor)
  }

  /** Every weight of the profile is non-negative (the authored ones are all positive). */
  predicate NonNegativeWeights(weights: map<Code, real>)
  {
    forall c :: c in weights ==> weights[c] >= 0.0
  }

  /** The four authored profiles carry only positive weights. */
  lemma BaseWeightsNonNegative()
    ensures forall n :: n in BaseProfiles ==> NonNegativeWeights(BaseProfiles[n].severityWeights)
  {
    forall n | n in BaseProfiles ensures NonNegativeWeights(BaseProfiles[n].severityWeights) {
      AuthoredWeightsNonNegative(BaseProfiles[n]);
    }
  }

  lemma AuthoredWeightsNonNegative(p: DiseaseProfile)
    requires p == Dengue || p == Malaria || p == Typhoid || p == Covid19
    ensures NonNegativeWeights(p.severityWeights)
  {
  }

  /** Merging keeps the weights non-negative: every merged weight is one of the inputs'. */
  lemma MergeWeightsNonNegative(p1: DiseaseProfile, p2: DiseaseProfile)
    requires NonNegativeWeights(p1.severityWeights) && NonNegativeWeights(p2.severityWeights)
    ensures NonNegativeWeights(MergeDiseaseProfiles(p1, p2).severityWeights)
  {
    MergeDiseaseProfilesSpec(p1, p2);
  }

  /** Each further occurrence of a weighted code adds its weight * 1.2 again. */
  lemma {:induction false} SeverityScoreAppend(patient: seq<Code>, c: Code, weights: map<Code, real>)
    ensures SeverityScore(patient + [c], weights)
         == SeverityScore(patient, weights) + (if c in weights then weights[c] * SeverityMultiplier else 0.0)
    decreases |patient|
  {
    if patient == [] {
      assert [] + [c] == [c];
      assert [c][1..] == [];
    } else {
      assert (patient + [c])[1..] == patient[1..] + [c];
      SeverityScoreAppend(patient[1..], c, weights);
    }
  }

  lemma {:induction false} SeverityScoreNonNegative(patient: seq<Code>, weights: map<Code, real>)
    requires NonNegativeWeights(weights)
    ensures SeverityScore(patient, weights) >= 0.0
    decreases |patient|
  {
    if patient != [] {
      SeverityScoreNonNegative(patient[1..], weights);
    }
  }

  /** A code that is already present adds nothing to the primary and secondary hits,
      but its severity weight is counted again. */
  lemma RepeatedCode(patient: seq<Code>, c: Code, profile: DiseaseProfile)
    requires c in patient
    ensures PrimaryScore(patient + [c], profile) == PrimaryScore(patient, profile)
    ensures SecondaryScore(patient + [c], profile) == SecondaryScore(patient, profile)
    ensures SeverityScore(patient + [c], profile.severityWeights)
         == SeverityScore(patient, profile.severityWeights)
            + (if c in profile.severityWeights then profile.severityWeights[c] * SeverityMultiplier else 0.0)
  {
    assert Elems(patient + [c]) == Elems(patient);
    SeverityScoreAppend(patient, c, profile.severityWeights);
  }

  lemma SubsetCardinality<T>(a: set<T>, b: set<T>)
    requires a <= b
    ensures |a| <= |b|
  {
    assert b == a + (b - a);
  }

  /** Appending a code never lowers the score when no weight is negative. */
  lemma ScoreMonotone(patient: seq<Code>, c: Code, profile: DiseaseProfile)
    requires NonNegativeWeights(profile.severityWeights)
    requires CalculateSymptomMatchScore(patient, profile).Success?
    ensures CalculateSymptomMatchScore(patient + [c], profile).Success?
    ensures CalculateSymptomMatchScore(patient + [c], profile).value >= CalculateSymptomMatchScore(patient, profile).value
  {
    var more := patient + [c];
    assert Elems(patient) <= Elems(more);
    SubsetCardinality(Elems(patient) * Elems(profile.primarySymptoms), Elems(more) * Elems(profile.primarySymptoms));
    SubsetCardinality(Elems(patient) * Elems(profile.secondarySymptoms), Elems(more) * Elems(profile.secondarySymptoms));
    SeverityScoreAppend(patient, c, profile.severityWeights);
    SeverityScoreNonNegative([c], profile.severityWeights);
    assert SeverityScore([c], profile.severityWeights) == (if c in profile.severityWeights then profile.severityWeights[c] * SeverityMultiplier else 0.0);
    QuotientMonotone(ActualScore(patient, profile), ActualScore(more, profile), TotalPossibleScore(profile));
  }

  lemma QuotientMonotone(a: real, b: real, t: real)
    requires a <= b && t > 0.0
    ensures a / t * 100.0 <= b / t * 100.0
  {
    assert b / t - a / t == (b - a) / t;
  }

  /** An empty patient list scores exactly the floor against any profile with symptoms. */
  lemma ScoreOfNothing(profile: DiseaseProfile)
    requires HasSymptoms(profile)
    ensures CalculateSymptomMatchScore([], profile) == Success(ScoreFloor)
  {
    assert Elems<Code>([]) == {};
  }

  /** Three dengue hallmarks: 9 / 25.5 of the possible score, 600/17 percent (about 35.29). */
  lemma DengueHallmarks()
    ensures CalculateSymptomMatchScore(["HF", "BF", "ROP"], Dengue) == Success(600.0 / 17.0)
  {
    DengueHallmarksPrimary();
    DengueHallmarksOnlyPrimary();
    assert TotalPossibleScore(Dengue) == 25.5;
    assert 9.0 / 25.5 * 100.0 == 600.0 / 17.0;
  }

  /** All three dengue hallmarks are distinct primary symptoms of dengue. */
  lemma DengueHallmarksPrimary()
    ensures PrimaryScore(["HF", "BF", "ROP"], Dengue) == 9.0
  {
    var patient: seq<Code> := ["HF", "BF", "ROP"];
    assert Elems(patient) * Elems(Dengue.primarySymptoms) == Elems(patient);
    DistinctCard(patient);
  }

  /** None of the three dengue hallmarks is a secondary or a weighted dengue symptom. */
  lemma DengueHallmarksOnlyPrimary()
    ensures SecondaryScore(["HF", "BF", "ROP"], Dengue) == 0.0
    ensures SeverityScore(["HF", "BF", "ROP"], Dengue.severityWeights) == 0.0
  {
    var patient: seq<Code> := ["HF", "BF", "ROP"];
    assert Elems(patient) * Elems(Dengue.secondarySymptoms) == {};
    assert SeverityScore(patient[2..], Dengue.severityWeights) == 0.0;
  }

  /** continuous_fever and confusion both normalise to CF: against typhoid the
      second CF raises the score through the severity bonus alone. */
  lemma SharedCodeCountsTwice()
    ensures CalculateSymptomMatchScore(["CF"], Typhoid) == Success(456.0 / 16.5)
    ensures CalculateSymptomMatchScore(["CF", "CF"], Typhoid) == Success(612.0 / 16.5)
  {
    assert Elems<Code>(["CF"]) == {"CF"};
    assert Elems<Code>(["CF", "CF"]) == {"CF"};
    assert Elems<Code>(["CF"]) * Elems(Typhoid.primarySymptoms) == {"CF"};
    assert Elems<Code>(["CF"]) * Elems(Typhoid.secondarySymptoms) == {};
    assert TotalPossibleScore(Typhoid) == 16.5;
  }
}
