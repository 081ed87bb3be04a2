/** `diagnose` on the registry the analyser's constructor builds
    (backend/disease_analyzer.py, lines 52-104 and 162-184): the ten identifiers in
    dictionary order, with the four authored profiles under the base names. */
module Shipped {

  import opened Wrappers
  import opened Seqs
  import opened Symptoms
  import opened Profiles
  import opened Scoring
  import opened Diagnosis

  /** The keys of the constructed registry, in insertion order. */
  const RegistryNames: seq<string> := SingleDiseases + CoinfectionIds(CoinfectionPairs)

  /** A profile table that agrees with the constructed registry: every identifier is
      present and the base names hold the authored profiles. */
  predicate ShippedTable(profiles: map<string, DiseaseProfile>)
  {
    && (forall n :: n in RegistryNames ==> n in profiles)
    && (forall n :: n in SingleDiseases ==> n in profiles && profiles[n] == BaseProfiles[n])
  }

  /** The constructed registry has ten keys, each once: four base names that hold no
      underscore and can be scored, then six identifiers that hold one. */
  lemma ShippedRegistry(profiles: map<string, DiseaseProfile>)
    requires ShippedTable(profiles)
    ensures |RegistryNames| == 10
    ensures Distinct(RegistryNames)
    ensures forall k :: 0 <= k < |SingleDiseases| ==>
              '_' !in SingleDiseases[k] && HasSymptoms(profiles[SingleDiseases[k]])
    ensures forall n :: n in CoinfectionIds(CoinfectionPairs) ==> '_' in n
  {
    ShippedSingles();
    RegistryKeys();
  }

  /** The ten keys are distinct and the six generated ones hold an underscore. */
  lemma RegistryKeys()
    ensures |RegistryNames| == 10
    ensures Distinct(RegistryNames)
    ensures forall n :: n in CoinfectionIds(CoinfectionPairs) ==> '_' in n
  {
    ShippedCoinfections();
    ShippedSingles();
    var ids := CoinfectionIds(CoinfectionPairs);
    assert |ids| == 6;
    forall n | n in ids ensures '_' in n {
      var k :| 0 <= k < |ids| && ids[k] == n;
    }
    forall a, b | 0 <= a < b < |RegistryNames| ensures RegistryNames[a] != RegistryNames[b] {
      if b >= 4 && a < 4 {
        assert RegistryNames[b] == ids[b - 4];
        assert RegistryNames[a] == SingleDiseases[a];
      }
    }
  }

  /** With no recognised symptom the shipped analyser reports the four base diseases at
      exactly 20, in declaration order, and no co-infection. */
  lemma DiagnoseEmptyShipped(profiles: map<string, DiseaseProfile>, symptoms: seq<string>)
    requires ShippedTable(profiles)
    requires Normalize(SymptomMap, symptoms) == []
    ensures DiagnoseSpec(SymptomMap, RegistryNames, profiles, symptoms)
         == Success([Entry("dengue", 20.0), Entry("malaria", 20.0), Entry("typhoid", 20.0), Entry("covid19", 20.0)])
  {
    assert AtFloor(SingleDiseases)
        == [Entry("dengue", 20.0), Entry("malaria", 20.0), Entry("typhoid", 20.0), Entry("covid19", 20.0)];
    assert DiagnoseSpec(SymptomMap, RegistryNames, profiles, symptoms) == Success(AtFloor(SingleDiseases)) by {
      ShippedRegistry(profiles);
      DiagnoseNothingRecognisedOnRegistry(SymptomMap, SingleDiseases, CoinfectionIds(CoinfectionPairs), profiles, symptoms);
    }
  }

  /** The three dengue hallmarks as a patient would tick them. */
  const HallmarkInput: seq<string> := ["high_fever", "biphasic_fever", "retro_orbital_pain"]

  /** They normalise to their three codes, in order. */
  lemma HallmarkCodes()
    ensures Normalize(SymptomMap, HallmarkInput) == ["HF", "BF", "ROP"]
  {
    HallmarkTable();
    KnownNames(SymptomMap, "high_fever", "biphasic_fever", "retro_orbital_pain");
  }

  /** The table entries of the three hallmark names. */
  lemma HallmarkTable()
    ensures Lower("high_fever") in SymptomMap && SymptomMap[Lower("high_fever")] == "HF"
    ensures Lower("biphasic_fever") in SymptomMap && SymptomMap[Lower("biphasic_fever")] == "BF"
    ensures Lower("retro_orbital_pain") in SymptomMap && SymptomMap[Lower("retro_orbital_pain")] == "ROP"
  {
    NamesAreLowerCase0();
  }

  /** Three recognised names normalise to their three codes, in order. */
  lemma KnownNames(table: map<string, Code>, a: string, b: string, c: string)
    requires Lower(a) in table && Lower(b) in table && Lower(c) in table
    ensures Normalize(table, [a, b, c]) == [table[Lower(a)], table[Lower(b)], table[Lower(c)]]
  {
    NormalizeOne(table, a);
    NormalizeOne(table, b);
    NormalizeOne(table, c);
    NormalizeConcat(table, [a], [b, c]);
    NormalizeConcat(table, [b], [c]);
    assert [a, b, c] == [a] + ([b] + [c]);
  }

  /** Two code lists with no code in common share no element. */
  lemma NoCommonCode(a: seq<Code>, b: seq<Code>)
    requires forall x :: x in a ==> x !in b
    ensures Elems(a) * Elems(b) == {}
  {
  }

  /** A profile that none of the codes hits scores the floor. */
  lemma NoHitsAtFloor(codes: seq<Code>, p: DiseaseProfile)
    requires HasSymptoms(p)
    requires forall x :: x in codes ==> x !in p.primarySymptoms && x !in p.secondarySymptoms && x !in p.severityWeights
    ensures BaseConfidence(codes, p) == ScoreFloor
  {
    NoCommonCode(codes, p.primarySymptoms);
    NoCommonCode(codes, p.secondarySymptoms);
    assert ActualScore(codes, p) == 0.0;
    assert RawConfidence(codes, p) == 0.0;
  }

  /** Malaria shares no code with the hallmarks: it scores the floor. */
  lemma HallmarksMissMalaria()
    ensures BaseConfidence(["HF", "BF", "ROP"], Malaria) == ScoreFloor
  {
    NoHitsAtFloor(["HF", "BF", "ROP"], Malaria);
  }

  /** Typhoid shares no code with the hallmarks: it scores the floor. */
  lemma HallmarksMissTyphoid()
    ensures BaseConfidence(["HF", "BF", "ROP"], Typhoid) == ScoreFloor
  {
    NoHitsAtFloor(["HF", "BF", "ROP"], Typhoid);
  }

  /** High fever is a secondary symptom of covid19: 1.5 of 24 points, 6.25 percent, the floor. */
  lemma HallmarksAgainstCovid19()
    ensures BaseConfidence(["HF", "BF", "ROP"], Covid19) == ScoreFloor
  {
    HallmarksCovid19Hits();
    assert TotalPossibleScore(Covid19) == 24.0;
    assert RawConfidence(["HF", "BF", "ROP"], Covid19) == 1.5 / 24.0 * 100.0;
  }

  /** Of the hallmarks only high fever is a covid19 symptom, a secondary one. */
  lemma HallmarksCovid19Hits()
    ensures ActualScore(["HF", "BF", "ROP"], Covid19) == 1.5
  {
    OneSecondaryHit(["HF", "BF", "ROP"], Covid19, "HF");
  }

  /** Codes of which exactly one is a symptom of the profile, a secondary unweighted one,
      earn the secondary weight once. */
  lemma OneSecondaryHit(codes: seq<Code>, p: DiseaseProfile, c: Code)
    requires c in codes && c in p.secondarySymptoms
    requires forall x :: x in codes ==> x !in p.primarySymptoms && x !in p.severityWeights
    requires forall x :: x in codes && x in p.secondarySymptoms ==> x == c
    ensures ActualScore(codes, p) == 1.5
  {
    NoCommonCode(codes, p.primarySymptoms);
    assert Elems(codes) * Elems(p.secondarySymptoms) == {c};
  }

  /** The base results for the hallmarks, in registry order. */
  const HallmarkBase: seq<Entry> :=
    [Entry("dengue", 600.0 / 17.0), Entry("malaria", 20.0), Entry("typhoid", 20.0), Entry("covid19", 20.0)]

  /** The base result of the hallmarks for the base disease at position `k`. */
  lemma HallmarkEntry(k: nat)
    requires k < |SingleDiseases|
    ensures SingleDiseases[k] in BaseProfiles && HasSymptoms(BaseProfiles[SingleDiseases[k]])
    ensures HallmarkBase[k] == Entry(SingleDiseases[k], BaseConfidence(["HF", "BF", "ROP"], BaseProfiles[SingleDiseases[k]]))
  {
    if k == 0 {
      DengueHallmarks();
    } else if k == 1 {
      HallmarksMissMalaria();
    } else if k == 2 {
      HallmarksMissTyphoid();
    } else {
      HallmarksAgainstCovid19();
    }
  }

  /** The first loop of `diagnose` on the hallmark codes yields the base results. */
  lemma HallmarkBaseEntries(profiles: map<string, DiseaseProfile>)
    requires ShippedTable(profiles)
    ensures forall n :: n in RegistryNames ==> n in profiles
    ensures Scorable(RegistryNames, profiles)
    ensures BaseEntries(RegistryNames, profiles, ["HF", "BF", "ROP"]) == HallmarkBase
  {
    ShippedRegistry(profiles);
    forall k | 0 <= k < |SingleDiseases|
      ensures HallmarkBase[k] == Entry(SingleDiseases[k], BaseConfidence(["HF", "BF", "ROP"], profiles[SingleDiseases[k]]))
    {
      HallmarkEntry(k);
    }
    BaseEntriesAre(SingleDiseases, CoinfectionIds(CoinfectionPairs), profiles, ["HF", "BF", "ROP"], HallmarkBase);
  }

  /** Dengue's result is above the floor the other three sit at. */
  lemma HallmarkBaseSorted()
    ensures NonIncreasing(HallmarkBase)
  {
    var r := HallmarkBase;
    assert 600.0 / 17.0 >= 20.0;
    forall a, b | 0 <= a < b < |r| ensures r[a].confidence >= r[b].confidence {
      assert r[b].confidence == 20.0;
    }
  }

  /** No co-infection of the hallmark results reaches the threshold: at most 0.8 * 600/17. */
  lemma HallmarkNoCoinfections()
    ensures CoEntries(RegistryNames, HallmarkBase) == []
  {
    forall n | n in RegistryNames && '_' in n
      ensures CoinfectionConfidence(HallmarkBase, n) <= CoinfectionThreshold
    {
      CombinedBound(HallmarkBase, n, 600.0 / 17.0);
    }
    NoCoEntries(RegistryNames, HallmarkBase);
  }

  /** Ticking the three dengue hallmarks on the shipped analyser reports dengue at 600/17
      (about 35.29) first, then malaria, typhoid and covid19 at the floor, and no
      co-infection. */
  lemma DiagnoseHallmarksShipped(profiles: map<string, DiseaseProfile>)
    requires ShippedTable(profiles)
    ensures DiagnoseSpec(SymptomMap, RegistryNames, profiles, HallmarkInput)
         == Success([Entry("dengue", 600.0 / 17.0), Entry("malaria", 20.0), Entry("typhoid", 20.0), Entry("covid19", 20.0)])
  {
    ShippedRegistry(profiles);
    HallmarkCodes();
    HallmarkBaseEntries(profiles);
    HallmarkNoCoinfections();
    HallmarkBaseSorted();
    DiagnoseBaseOnly(SymptomMap, RegistryNames, profiles, HallmarkInput, HallmarkBase);
  }
}
