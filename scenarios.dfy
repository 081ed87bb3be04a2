/** Whole-program runs: a freshly constructed analyser asked to diagnose
    (backend/disease_analyzer.py, `__init__` followed by `diagnose`). */
module Scenarios {

  import opened Wrappers
  import opened Symptoms
  import opened Scoring
  import opened Diagnosis
  import opened Analyzer
  import opened Shipped

  /** A new analyser given the three dengue hallmarks reports dengue at 600/17 first,
      then malaria, typhoid and covid19 at the floor, and no co-infection. */
  method DiagnoseHallmarksOnNewAnalyzer() returns (r: Result<seq<Entry>, ScoreError>)
    ensures r == Success([Entry("dengue", 600.0 / 17.0), Entry("malaria", 20.0), Entry("typhoid", 20.0), Entry("covid19", 20.0)])
  {
    var analyzer := new DiseaseAnalyzer();
    r := analyzer.Diagnose(HallmarkInput);
    DiagnoseHallmarksShipped(analyzer.profiles);
  }

  /** A new analyser given no recognised symptom reports the four base diseases at the
      floor, in declaration order, and no co-infection. */
  method DiagnoseNothingOnNewAnalyzer(symptoms: seq<string>) returns (r: Result<seq<Entry>, ScoreError>)
    requires Normalize(SymptomMap, symptoms) == []
    ensures r == Success([Entry("dengue", 20.0), Entry("malaria", 20.0), Entry("typhoid", 20.0), Entry("covid19", 20.0)])
  {
    var analyzer := new DiseaseAnalyzer();
    r := analyzer.Diagnose(symptoms);
    DiagnoseEmptyShipped(analyzer.profiles, symptoms);
  }
}
