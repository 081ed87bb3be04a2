/** The analyser object (backend/disease_analyzer.py, class `DiseaseAnalyzer`): the
    symptom table, the profile registry built by the constructor, the alignment score
    and `diagnose`. The registry is a Python dictionary, kept as its key order
    `profileNames` and its contents `profiles`. */
module Analyzer {

  import opened Wrappers
  import opened Seqs
  import opened Symptoms
  import opened Profiles
  import opened Scoring
  import opened Alignment
  import opened Diagnosis

  class DiseaseAnalyzer {
    /** `self.symptom_map`: display names to codes; never changed after construction. */
    const symptomMap: map<string, Code>
    /** The keys of `self.disease_profiles`, in insertion order. */
    var profileNames: seq<string>
    /** `self.disease_profiles`. */
    var profiles: map<string, DiseaseProfile>

    /** The key order lists every key of the registry exactly once. */
    ghost predicate Valid()
      reads this
    {
      Distinct(profileNames) && Elems(profileNames) == profiles.Keys
    }

    /** The registry as the constructor leaves it: the four base profiles, then the six
        merged co-infection profiles. */
    ghost predicate Shipped()
      reads this
    {
      && Valid()
      && profileNames == SingleDiseases + CoinfectionIds(CoinfectionPairs)
      && (forall n :: n in SingleDiseases ==> n in profiles && profiles[n] == BaseProfiles[n])
      && (forall k :: 0 <= k < |CoinfectionPairs| ==>
            CoinfectionIds(CoinfectionPairs)[k] in profiles
            && profiles[CoinfectionIds(CoinfectionPairs)[k]]
               == MergeDiseaseProfiles(BaseProfiles[CoinfectionPairs[k].0], BaseProfiles[CoinfectionPairs[k].1]))
    }

    constructor ()
      ensures symptomMap == SymptomMap
      ensures Shipped()
      ensures profiles.Keys == BaseProfiles.Keys + Elems(CoinfectionIds(CoinfectionPairs))
    {
      symptomMap := SymptomMap;
      profileNames := SingleDiseases;
      profiles := BaseProfiles;
      new;
      ShippedSingles();
      ShippedCoinfections();
      assert Valid();
      GenerateCoinfectionProfiles();
      GenerateDone(BaseProfiles, SingleDiseases, CoinfectionPairs);
      AppendNewFresh(SingleDiseases, CoinfectionIds(CoinfectionPairs));
      assert forall n :: n in SingleDiseases ==> n !in Elems(CoinfectionIds(CoinfectionPairs));
    }

    /** `_generate_coinfection_profiles`: for every pair i < j of the base list, in loop
        order, store the merge of the two current profiles under "d1_d2". Afterwards the
        registry is the generated table over the visited pairs and the key order has
        gained their identifiers at the end. */
    method GenerateCoinfectionProfiles()
      requires Valid()
      requires forall n :: n in SingleDiseases ==> n in profiles
      modifies this
      ensures Valid()
      ensures PairsIn(old(profiles), CoinfectionPairs)
      ensures profileNames == AppendNew(old(profileNames), CoinfectionIds(CoinfectionPairs))
      ensures profiles == GeneratedTable(old(profiles), CoinfectionPairs)
    {
      var singleDiseases := SingleDiseases;
      SinglesUnseparated();
      ghost var names0, profiles0 := profileNames, profiles;
      var i := 0;
      while i < |singleDiseases|
        invariant 0 <= i <= |singleDiseases|
        invariant PairsIn(profiles0, PairsBefore(singleDiseases, i, i + 1))
        invariant profileNames == AppendNew(names0, CoinfectionIds(PairsBefore(singleDiseases, i, i + 1)))
        invariant profiles == GeneratedTable(profiles0, PairsBefore(singleDiseases, i, i + 1))
      {
        GenerateRow(singleDiseases, i, names0, profiles0);
        i := i + 1;
      }
      ghost var prs := PairsBefore(singleDiseases, i, i + 1);
      ShippedPairsBefore();
      assert prs == CoinfectionPairs;
      GenerateDoneKeys(profiles0, names0, prs);
      assert Distinct(profileNames) && Elems(profileNames) == profiles.Keys;
    }

    /** One pass of the inner loop of `_generate_coinfection_profiles`: the pairs
        (singles[i], singles[j]) for every j > i, in order. */
    method GenerateRow(singles: seq<string>, i: nat, ghost names0: seq<string>,
                       ghost profiles0: map<string, DiseaseProfile>)
      requires i < |singles|
      requires forall k :: 0 <= k < |singles| ==> '_' !in singles[k] && singles[k] in profiles0
      requires PairsIn(profiles0, PairsBefore(singles, i, i + 1))
      requires profileNames == AppendNew(names0, CoinfectionIds(PairsBefore(singles, i, i + 1)))
      requires profiles == GeneratedTable(profiles0, PairsBefore(singles, i, i + 1))
      modifies this
      ensures PairsIn(profiles0, PairsBefore(singles, i + 1, i + 2))
      ensures profileNames == AppendNew(names0, CoinfectionIds(PairsBefore(singles, i + 1, i + 2)))
      ensures profiles == GeneratedTable(profiles0, PairsBefore(singles, i + 1, i + 2))
    {
      var j := i + 1;
      while j < |singles|
        invariant i + 1 <= j <= |singles|
        invariant PairsIn(profiles0, PairsBefore(singles, i, j))
        invariant profileNames == AppendNew(names0, CoinfectionIds(PairsBefore(singles, i, j)))
        invariant profiles == GeneratedTable(profiles0, PairsBefore(singles, i, j))
      {
        var disease1, disease2 := singles[i], singles[j];
        var coinfectionName := CoinfectionName(disease1, disease2);
        GenerateStep(profiles0, singles, i, j);
        GenerateNamesStep(names0, singles, i, j);
        profiles := profiles[coinfectionName := MergeDiseaseProfiles(profiles[disease1], profiles[disease2])];
        profileNames := InsertKey(profileNames, coinfectionName);
        j := j + 1;
      }
      GenerateRowEnd(singles, i, j);
    }

    /** `needleman_wunsch`: fill the (m+1) x (n+1) table row by row and return its last cell. */
    method NeedlemanWunsch(seq1: seq<string>, seq2: seq<string>) returns (score: int)
      ensures score == Align(seq1, seq2)
    {
      var m, n := |seq1|, |seq2|;
      var scoreMatrix := new int[m + 1, n + 1];
      var j := 0;
      while j <= n
        invariant 0 <= j <= n + 1
        invariant forall b :: 0 <= b < j ==> scoreMatrix[0, b] == Cell(seq1, seq2, 0, b)
      {
        scoreMatrix[0, j] := GapPenalty * j;
        j := j + 1;
      }
      var i := 0;
      while i <= m
        invariant 0 <= i <= m + 1
        invariant forall b :: 1 <= b <= n ==> scoreMatrix[0, b] == Cell(seq1, seq2, 0, b)
        invariant forall a :: 0 <= a < i ==> scoreMatrix[a, 0] == Cell(seq1, seq2, a, 0)
      {
        scoreMatrix[i, 0] := GapPenalty * i;
        i := i + 1;
      }
      i := 1;
      while i <= m
        invariant 1 <= i <= m + 1
        invariant RowsFilled(scoreMatrix, seq1, seq2, i)
        invariant forall a :: i <= a <= m ==> scoreMatrix[a, 0] == Cell(seq1, seq2, a, 0)
      {
        FillRow(scoreMatrix, seq1, seq2, i);
        i := i + 1;
      }
      score := scoreMatrix[m, n];
    }

    /** `diagnose`: the two passes over the registry, then the sort. A base profile
        without symptoms makes the score's division fail, and the failure is returned. */
    method Diagnose(symptoms: seq<string>) returns (r: Result<seq<Entry>, ScoreError>)
      requires Valid()
      ensures r == DiagnoseSpec(symptomMap, profileNames, profiles, symptoms)
      ensures r.Failure? <==> !Scorable(profileNames, profiles)
      ensures Shipped() ==> r.Success?
    {
      var patientSymptoms := Normalize(symptomMap, symptoms);
      var results: seq<Entry> := [];
      var i := 0;
      while i < |profileNames|
        invariant 0 <= i <= |profileNames|
        invariant BaseFrom(profileNames, profiles, patientSymptoms, i, results)
               == BaseFrom(profileNames, profiles, patientSymptoms, 0, [])
      {
        var disease := profileNames[i];
        if '_' !in disease {
          var baseConfidence := CalculateSymptomMatchScore(patientSymptoms, profiles[disease]);
          if baseConfidence.Failure? {
            r := Failure(baseConfidence.error);
            DiagnoseOutcome(symptomMap, profileNames, profiles, symptoms);
            ShippedScorable();
            return;
          }
          results := Put(results, disease, Clamp(baseConfidence.value));
        }
        i := i + 1;
      }
      ghost var base := results;
      i := 0;
      while i < |profileNames|
        invariant 0 <= i <= |profileNames|
        invariant CoFrom(profileNames, i, results) == CoFrom(profileNames, 0, base)
      {
        var disease := profileNames[i];
        if '_' in disease {
          var diseases := Split(disease);
          var individualScores := IndividualScores(results, diseases);
          if |individualScores| > 0 {
            var combinedConfidence := CombinedConfidence(individualScores);
            if combinedConfidence > CoinfectionThreshold {
              results := Put(results, disease, combinedConfidence);
            }
          }
        }
        i := i + 1;
      }
      r := Success(SortByConfidence(results));
      DiagnoseOutcome(symptomMap, profileNames, profiles, symptoms);
      ShippedScorable();
    }

    /** No profile of the shipped registry, authored or merged, has a negative weight. */
    lemma ShippedWeightsNonNegative()
      requires Shipped()
      ensures forall n :: n in profiles ==> NonNegativeWeights(profiles[n].severityWeights)
    {
      BaseWeightsNonNegative();
      ShippedCoinfections();
      var ids := CoinfectionIds(CoinfectionPairs);
      forall k | 0 <= k < |ids| ensures NonNegativeWeights(profiles[ids[k]].severityWeights) {
        MergeWeightsNonNegative(BaseProfiles[CoinfectionPairs[k].0], BaseProfiles[CoinfectionPairs[k].1]);
      }
      forall n | n in profiles ensures NonNegativeWeights(profiles[n].severityWeights) {
        assert n in SingleDiseases + ids;
      }
    }

    /** On the shipped registry, one more code never lowers the score against any profile. */
    lemma ShippedScoreMonotone(patient: seq<Code>, c: Code, n: string)
      requires Shipped()
      requires n in profiles && HasSymptoms(profiles[n])
      ensures CalculateSymptomMatchScore(patient + [c], profiles[n]).Success?
      ensures CalculateSymptomMatchScore(patient + [c], profiles[n]).value
           >= CalculateSymptomMatchScore(patient, profiles[n]).value
    {
      ShippedWeightsNonNegative();
      ScoreMonotone(patient, c, profiles[n]);
    }

    /** Every base profile of the shipped registry has symptoms. */
    lemma ShippedScorable()
      requires Valid()
      ensures Shipped() ==> Scorable(profileNames, profiles)
    {
      if Shipped() {
        ShippedCoinfections();
        forall n | n in profileNames && '_' !in n ensures HasSymptoms(profiles[n]) {
          assert n in SingleDiseases;
        }
      }
    }
  }

  /** Rows 0 to k - 1 of the alignment table hold the recurrence's cells. */
  ghost predicate RowsFilled(scoreMatrix: array2<int>, seq1: seq<string>, seq2: seq<string>, k: nat)
    reads scoreMatrix
  {
    && scoreMatrix.Length0 == |seq1| + 1 && scoreMatrix.Length1 == |seq2| + 1 && k <= |seq1| + 1
    && forall a, b {:trigger scoreMatrix[a, b]} :: 0 <= a < k && 0 <= b <= |seq2| ==> scoreMatrix[a, b] == Cell(seq1, seq2, a, b)
  }

  /** The inner loop of `needleman_wunsch`: fill row i from left to right, each cell the
      best of the diagonal, the cell above and the cell to the left. */
  method FillRow(scoreMatrix: array2<int>, seq1: seq<string>, seq2: seq<string>, i: nat)
    requires 1 <= i <= |seq1|
    requires RowsFilled(scoreMatrix, seq1, seq2, i)
    requires scoreMatrix[i, 0] == Cell(seq1, seq2, i, 0)
    modifies scoreMatrix
    ensures RowsFilled(scoreMatrix, seq1, seq2, i + 1)
    ensures forall a :: i < a <= |seq1| ==> scoreMatrix[a, 0] == old(scoreMatrix[a, 0])
  {
    var j := 1;
    while j <= |seq2|
      invariant 1 <= j <= |seq2| + 1
      invariant RowsFilled(scoreMatrix, seq1, seq2, i)
      invariant forall b {:trigger scoreMatrix[i, b]} :: 0 <= b < j ==> scoreMatrix[i, b] == Cell(seq1, seq2, i, b)
      invariant forall a :: i < a <= |seq1| ==> scoreMatrix[a, 0] == old(scoreMatrix[a, 0])
    {
      var diagonal := scoreMatrix[i - 1, j - 1] + PairScore(seq1[i - 1], seq2[j - 1]);
      var delete := scoreMatrix[i - 1, j] + GapPenalty;
      var insert := scoreMatrix[i, j - 1] + GapPenalty;
      assert diagonal == Cell(seq1, seq2, i - 1, j - 1) + PairScore(seq1[i - 1], seq2[j - 1]);
      assert delete == Cell(seq1, seq2, i - 1, j) + GapPenalty;
      assert insert == Cell(seq1, seq2, i, j - 1) + GapPenalty;
      var best := Max3(diagonal, delete, insert);
      assert best == Cell(seq1, seq2, i, j);
      scoreMatrix[i, j] := best;
      j := j + 1;
    }
  }

  /** Both diseases of every pair have a profile in `table`. */
  ghost predicate PairsIn(table: map<string, DiseaseProfile>, prs: seq<(string, string)>)
  {
    forall k :: 0 <= k < |prs| ==> prs[k].0 in table && prs[k].1 in table
  }

  /** The registry after storing, for each pair in order, the merge of the two original
      profiles under the pair's identifier. */
  ghost function GeneratedTable(table: map<string, DiseaseProfile>, prs: seq<(string, string)>): map<string, DiseaseProfile>
    requires PairsIn(table, prs)
    decreases |prs|
  {
    if prs == [] then table
    else
      var last := prs[|prs| - 1];
      GeneratedTable(table, prs[..|prs| - 1])[CoinfectionName(last.0, last.1) := MergeDiseaseProfiles(table[last.0], table[last.1])]
  }

  /** A name without the separator is never a stored identifier: it keeps its original profile. */
  lemma {:induction false} GeneratedOutside(table: map<string, DiseaseProfile>, prs: seq<(string, string)>, d: string)
    requires PairsIn(table, prs)
    requires '_' !in d
    decreases |prs|
    ensures d in GeneratedTable(table, prs) <==> d in table
    ensures d in table ==> GeneratedTable(table, prs)[d] == table[d]
  {
    if prs != [] {
      var last := prs[|prs| - 1];
      assert CoinfectionName(last.0, last.1)[|last.0|] == '_';
      GeneratedOutside(table, prs[..|prs| - 1], d);
    }
  }

  /** The keys of the generated registry: the original ones and the identifiers. */
  lemma {:induction false} GeneratedKeys(table: map<string, DiseaseProfile>, prs: seq<(string, string)>)
    requires PairsIn(table, prs)
    decreases |prs|
    ensures forall x :: x in GeneratedTable(table, prs) <==> x in table || x in CoinfectionIds(prs)
  {
    if prs != [] {
      GeneratedKeys(table, prs[..|prs| - 1]);
    }
  }

  /** With distinct identifiers, the k-th identifier holds the merge of the k-th pair. */
  lemma {:induction false} GeneratedAt(table: map<string, DiseaseProfile>, prs: seq<(string, string)>, k: nat)
    requires PairsIn(table, prs) && Distinct(CoinfectionIds(prs))
    requires k < |prs|
    decreases |prs|
    ensures CoinfectionIds(prs)[k] in GeneratedTable(table, prs)
    ensures GeneratedTable(table, prs)[CoinfectionIds(prs)[k]] == MergeDiseaseProfiles(table[prs[k].0], table[prs[k].1])
  {
    var init := prs[..|prs| - 1];
    var ids := CoinfectionIds(prs);
    assert ids == CoinfectionIds(init) + [ids[|prs| - 1]];
    if k < |prs| - 1 {
      assert ids[k] != ids[|prs| - 1];
      assert Distinct(CoinfectionIds(init)) by {
        forall a, b | 0 <= a < b < |init| ensures CoinfectionIds(init)[a] != CoinfectionIds(init)[b] {
          assert CoinfectionIds(init)[a] == ids[a] && CoinfectionIds(init)[b] == ids[b];
        }
      }
      GeneratedAt(table, init, k);
    }
  }

  /** An original key that is no identifier keeps its profile. */
  lemma {:induction false} GeneratedElsewhere(table: map<string, DiseaseProfile>, prs: seq<(string, string)>, x: string)
    requires PairsIn(table, prs)
    requires x in table && x !in CoinfectionIds(prs)
    decreases |prs|
    ensures x in GeneratedTable(table, prs) && GeneratedTable(table, prs)[x] == table[x]
  {
    if prs != [] {
      GeneratedElsewhere(table, prs[..|prs| - 1], x);
    }
  }

  /** The inner loop's step at (i, j): the diseases read still hold their original
      profiles, and storing their merge yields the table over one more visited pair. */
  lemma GenerateStep(table: map<string, DiseaseProfile>, singles: seq<string>, i: nat, j: nat)
    requires i < j < |singles|
    requires forall k :: 0 <= k < |singles| ==> '_' !in singles[k] && singles[k] in table
    requires PairsIn(table, PairsBefore(singles, i, j))
    ensures PairsIn(table, PairsBefore(singles, i, j + 1))
    ensures
      var current := GeneratedTable(table, PairsBefore(singles, i, j));
      && singles[i] in current && singles[j] in current
      && current[CoinfectionName(singles[i], singles[j]) := MergeDiseaseProfiles(current[singles[i]], current[singles[j]])]
         == GeneratedTable(table, PairsBefore(singles, i, j + 1))
  {
    var before := PairsBefore(singles, i, j);
    var after := before + [(singles[i], singles[j])];
    assert PairsBefore(singles, i, j + 1) == after;
    assert after[..|before|] == before;
    GeneratedOutside(table, before, singles[i]);
    GeneratedOutside(table, before, singles[j]);
  }

  /** The end of row i is the start of row i + 1. */
  lemma GenerateRowEnd(singles: seq<string>, i: nat, j: nat)
    requires i < |singles| && j == |singles|
    ensures PairsBefore(singles, i + 1, i + 1 + 1) == PairsBefore(singles, i, j)
  {
  }

  /** The same step on the key order: the new identifier is inserted. */
  lemma GenerateNamesStep(names0: seq<string>, singles: seq<string>, i: nat, j: nat)
    requires i < j < |singles|
    ensures InsertKey(AppendNew(names0, CoinfectionIds(PairsBefore(singles, i, j))), CoinfectionName(singles[i], singles[j]))
            == AppendNew(names0, CoinfectionIds(PairsBefore(singles, i, j + 1)))
  {
    var before := PairsBefore(singles, i, j);
    var after := before + [(singles[i], singles[j])];
    assert PairsBefore(singles, i, j + 1) == after;
    assert after[..|before|] == before;
    AppendNewSnoc(names0, CoinfectionIds(before), CoinfectionName(singles[i], singles[j]));
  }

  /** After both loops every pair is stored: the registry is the one the generator promises,
      and its key order lists every key once. */
  lemma GenerateDone(table: map<string, DiseaseProfile>, names0: seq<string>, prs: seq<(string, string)>)
    requires Distinct(names0) && Elems(names0) == table.Keys
    requires PairsIn(table, prs) && Distinct(CoinfectionIds(prs))
    ensures
      var names := AppendNew(names0, CoinfectionIds(prs));
      var profiles := GeneratedTable(table, prs);
      && Distinct(names) && Elems(names) == profiles.Keys
      && profiles.Keys == table.Keys + Elems(CoinfectionIds(prs))
      && (forall k :: 0 <= k < |prs| ==>
            profiles[CoinfectionIds(prs)[k]] == MergeDiseaseProfiles(table[prs[k].0], table[prs[k].1]))
      && (forall n :: n in table && n !in Elems(CoinfectionIds(prs)) ==> profiles[n] == table[n])
  {
    GenerateDoneKeys(table, names0, prs);
    GenerateDoneValues(table, prs);
  }

  lemma GenerateDoneKeys(table: map<string, DiseaseProfile>, names0: seq<string>, prs: seq<(string, string)>)
    requires Distinct(names0) && Elems(names0) == table.Keys
    requires PairsIn(table, prs)
    ensures
      var names := AppendNew(names0, CoinfectionIds(prs));
      var profiles := GeneratedTable(table, prs);
      && Distinct(names) && Elems(names) == profiles.Keys
      && profiles.Keys == table.Keys + Elems(CoinfectionIds(prs))
  {
    var ids := CoinfectionIds(prs);
    var names := AppendNew(names0, ids);
    AppendNewSpec(names0, ids);
    GeneratedKeys(table, prs);
    forall x ensures x in Elems(names) <==> x in GeneratedTable(table, prs) {
      assert x in Elems(names) <==> x in names;
      assert x in Elems(names0) <==> x in names0;
    }
    forall x ensures x in Elems(ids) <==> x in ids {
    }
  }

  lemma GenerateDoneValues(table: map<string, DiseaseProfile>, prs: seq<(string, string)>)
    requires PairsIn(table, prs) && Distinct(CoinfectionIds(prs))
    ensures forall k :: 0 <= k < |prs| ==>
              CoinfectionIds(prs)[k] in GeneratedTable(table, prs)
              && GeneratedTable(table, prs)[CoinfectionIds(prs)[k]] == MergeDiseaseProfiles(table[prs[k].0], table[prs[k].1])
    ensures forall n :: n in table && n !in Elems(CoinfectionIds(prs)) ==>
              n in GeneratedTable(table, prs) && GeneratedTable(table, prs)[n] == table[n]
  {
    var ids := CoinfectionIds(prs);
    forall k | 0 <= k < |prs|
      ensures ids[k] in GeneratedTable(table, prs)
      ensures GeneratedTable(table, prs)[ids[k]] == MergeDiseaseProfiles(table[prs[k].0], table[prs[k].1])
    {
      GeneratedAt(table, prs, k);
    }
    forall n | n in table && n !in Elems(ids)
      ensures n in GeneratedTable(table, prs) && GeneratedTable(table, prs)[n] == table[n]
    {
      assert n !in ids;
      GeneratedElsewhere(table, prs, n);
    }
  }
}
