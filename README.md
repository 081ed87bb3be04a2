# Symptoms indicator: a Dafny model of the diagnosis engine

This project models the rule-based engine of the symptoms-indicator application. The
engine lives in the `DiseaseAnalyzer` class of `backend/disease_analyzer.py`. The model
also covers the small pieces of logic in the page script `frontend/static/app.js`.

The engine works in these steps:

1. Free-text symptom names are lower-cased and looked up in a closed table of 35 names.
   Each known name becomes a short code such as `HF`.
2. The codes are scored against four authored disease profiles (dengue, malaria, typhoid
   and covid19). The score is a weighted overlap: 3.0 per primary hit and 1.5 per
   secondary hit. Each occurrence of a weighted symptom adds its weight times 1.2.
3. The score is a percentage of the primary and secondary total. It is floored at 20
   and clamped to [20, 100].
4. For each pair of base diseases the constructor stores a merged co-infection profile
   under `d1_d2`. `diagnose` never scores a merged profile. It only averages the two base
   confidences, times 0.8, and keeps the co-infection when that is above 40.
5. The results are sorted by confidence, highest first. The sort is stable.

A Needleman-Wunsch alignment score is part of the analyser but is not used by `diagnose`.

The page keeps the ticked checkboxes in a `Set` and refuses to post an empty selection.
It splits the answer into single diseases and co-infections, shows only co-infections
above 40, and gives each of those a severity band.

Modules, in dependency order:

- `Wrappers`: the `Result` type.
- `Seqs`: generic sequence facts, insertion-ordered keys, `Filter`.
- `Symptoms`: the symptom table and normalisation.
- `Profiles`: profiles, their merge, co-infection identifiers and the pair enumeration.
- `Scoring`: the match score.
- `Alignment`: the alignment recurrence.
- `Diagnosis`: `diagnose` as a specification, including the stable sort.
- `Analyzer`: class `DiseaseAnalyzer`. Its methods have the loops of the original: the
  constructor, the co-infection generator, the alignment table and `diagnose`.
- `Shipped`: facts about the registry the constructor builds, and two complete diagnoses
  on it: no recognised symptom, and the three dengue hallmarks.
- `Ui`: class `DiseaseUi` and the page's pure helpers.
- `Scenarios`: whole runs of a freshly constructed `DiseaseAnalyzer`.

The Python dictionary `disease_profiles` becomes two fields: its key order `profileNames`
and its contents `profiles`. The invariant `Valid` says the key order lists each key
exactly once. The `results` dictionary of `diagnose` becomes an insertion-ordered
sequence of `Entry` values. The JavaScript `Set` becomes a duplicate-free sequence in
insertion order.

Arithmetic is exact `real` arithmetic. A profile with no symptoms at all makes the
Python code divide by zero. The model turns this into a `Failure(ZeroDivision)` result
of the scorer and of `diagnose`.

The comment above the weight merge (`backend/disease_analyzer.py` line 97) promises the
higher weight on a shared symptom. The code `{**p1, **p2}` keeps the second profile's
weight. The model follows the code. `MergeTakingHigher` states what the comment
describes. `MergeReadings` shows that the two readings differ exactly on the shared keys
whose first weight is higher. `ShippedWeightsDisjoint` shows that no two authored profiles
share a weighted symptom, so on the shipped catalogue the two readings agree.

## Model

| member | source | states |
|---|---|---|
| Symptoms.Normalize | backend/disease_analyzer.py:163 | normalisation never lengthens the list and yields only codes of the table |
| Symptoms.Lower | backend/disease_analyzer.py:163 | `s.lower()` keeps the length, turns each ASCII capital into its own lower-case letter and changes no other character (Unicode letters are under Left out) |
| Symptoms.NormalizeConcat | backend/disease_analyzer.py:163 | normalisation works name by name: the result for a concatenation is the concatenation of the results, so input order is kept |
| Symptoms.NormalizeOne | backend/disease_analyzer.py:163 | a single name yields its code if its lower-cased form is a key, and nothing otherwise |
| Symptoms.NormalizeKeepsAll | backend/disease_analyzer.py:163 | no name is dropped exactly when every lower-cased name is a key (both directions) |
| Symptoms.NormalizeDropsAll | backend/disease_analyzer.py:163 | the result is empty exactly when no lower-cased name is a key (both directions) |
| Symptoms.NamesAreLowerCase | backend/disease_analyzer.py:13-49 | every name of the table is its own lower-case form, so each key is reachable from some input |
| Symptoms.NamesAreLong | backend/disease_analyzer.py:13-49 | every name of the table has at least five characters |
| Symptoms.CodesAreShort | backend/disease_analyzer.py:13-49 | every code of the table has at most three characters |
| Symptoms.NormalizeCodesDropped | backend/disease_analyzer.py:163 | codes are not names: normalising an already normalised list gives nothing |
| Symptoms.CaseVariantRecognised | backend/disease_analyzer.py:163 | any spelling of a table name that differs from it only by capitalising some of its letters yields that name's code |
| Symptoms.NormalizeExample | backend/disease_analyzer.py:163 | case is ignored, and continuous_fever and confusion both yield CF, so the code appears twice |
| Seqs.InsertKeySpec | backend/disease_analyzer.py:87 | a dictionary store keeps an existing key in place and appends a new one; keys stay distinct |
| Seqs.AppendNewSpec | backend/disease_analyzer.py:94-95 | de-duplication keeps one copy of every element and adds nothing else |
| Seqs.Filter | frontend/static/app.js:183 | `Array.filter` keeps exactly the elements that pass, in their order, and never lengthens the list; `FilterCount`, `FilterConcat` and `FilterAll` state its counts, its split over a concatenation and that it keeps everything when all pass |
| Profiles.MergeDiseaseProfilesSpec | backend/disease_analyzer.py:92-104 | merged lists are duplicate-free with the union of both lists as their set; weights cover both key sets, with p2's weight on its keys and p1's elsewhere |
| Profiles.MergeDiseaseProfiles | backend/disease_analyzer.py:92-104 | the merge of two profiles; its contract is stated by `MergeDiseaseProfilesSpec` (duplicate-free lists with the union as set, p2's weight winning) and `MergeReadings` (against the comment's higher-value reading) |
| Profiles.MergeTakingHigher | backend/disease_analyzer.py:97 | the merge the comment describes covers both key sets |
| Profiles.MergeReadings | backend/disease_analyzer.py:97-98 | the code's merge and the higher-value merge have the same keys and differ exactly on the shared keys whose first weight is higher, so they are equal on disjoint key sets |
| Profiles.ShippedWeightsDisjoint | backend/disease_analyzer.py:52-73 | no two authored profiles share a weighted symptom |
| Profiles.Split | backend/disease_analyzer.py:175 | `split('_')` gives at least one piece, and no piece holds an underscore |
| Profiles.SplitJoin | backend/disease_analyzer.py:175 | splitting the join of underscore-free pieces gives the pieces back |
| Profiles.JoinSplit | backend/disease_analyzer.py:175 | joining the pieces of a split gives the string back |
| Profiles.SplitCoinfectionName | backend/disease_analyzer.py:84 | an identifier `d1_d2` holds an underscore and splits back into exactly d1 and d2 |
| Profiles.CoinfectionName | backend/disease_analyzer.py:84 | the identifier `f"{disease1}_{disease2}"`; `SplitCoinfectionName` proves it holds an underscore and splits back into the two names |
| Profiles.RowSpec | backend/disease_analyzer.py:82 | the inner loop of row i visits exactly the pairs (i, k) with i < k, in increasing order |
| Profiles.RowsSpec | backend/disease_analyzer.py:81-82 | the first i rows visit exactly the pairs whose first index is below i, in loop order |
| Profiles.PairsSpec | backend/disease_analyzer.py:81-82 | the two loops visit every index pair i < j < n exactly once |
| Profiles.GeneratorVisitsPairs | backend/disease_analyzer.py:79-84 | the pairs the generator's two loops visit over any base list are the list's elements at the index pairs of `Pairs`, one per pair in the same order, each with first index below second: the name enumeration and the index enumeration agree |
| Profiles.PairsBeforeNamed | backend/disease_analyzer.py:81-83 | the name pairs visited up to (i, j) are the index pairs visited up to (i, j), looked up in the base list |
| Profiles.IndexPairsBeforeIsRows | backend/disease_analyzer.py:81-82 | the index pairs visited up to (i, j) are the first i full rows followed by row i up to j |
| Profiles.ShippedPairs | backend/disease_analyzer.py:79-82 | over four diseases the loops visit (0,1), (0,2), (0,3), (1,2), (1,3), (2,3) in that order |
| Profiles.ShippedCoinfectionPairs | backend/disease_analyzer.py:79-84 | the shipped pair list is that enumeration applied to the base list |
| Profiles.ShippedSingles | backend/disease_analyzer.py:79 | the base names are distinct, hold no underscore and name authored profiles |
| Profiles.CoinfectionIdAt | backend/disease_analyzer.py:84 | the k-th identifier is d1 + "_" + d2 of the k-th pair |
| Profiles.CoinfectionIdsSplit | backend/disease_analyzer.py:84 | every identifier of underscore-free pairs holds an underscore and splits back into its pair |
| Profiles.CoinfectionIdsDistinct | backend/disease_analyzer.py:84 | distinct pairs of underscore-free names give distinct identifiers |
| Profiles.PairsBeforeMembers | backend/disease_analyzer.py:81-83 | every pair the loops visit is made of two base names |
| Profiles.ShippedPairsBefore | backend/disease_analyzer.py:79-82 | after both loops the visited pairs are exactly the six shipped pairs |
| Profiles.ShippedPairsOfBases | backend/disease_analyzer.py:79-84 | the shipped pairs are distinct pairs of underscore-free base names |
| Profiles.ShippedCoinfections | backend/disease_analyzer.py:79-90 | the six identifiers are distinct, differ from every base name and split back into their pair |
| Scoring.CalculateSymptomMatchScore | backend/disease_analyzer.py:127-160 | fails exactly on a profile with no symptoms; otherwise at least 20 and at least the raw percentage, exactly 20 when the raw percentage is at most 20, and the raw percentage above 20 |
| Scoring.PrimaryScore | backend/disease_analyzer.py:134-135 | 3.0 per distinct patient code among the primary symptoms; `DengueHallmarksPrimary`, `RepeatedCode` and `ScoreMonotone` state how it counts hits |
| Scoring.SecondaryScore | backend/disease_analyzer.py:138-139 | 1.5 per distinct patient code among the secondary symptoms; `RepeatedCode` and `ScoreMonotone` state how it counts hits |
| Scoring.SeverityScore | backend/disease_analyzer.py:142-146 | the severity bonus is zero when no patient code is weighted; `SeverityScoreAppend` and `SeverityScoreNonNegative` state the rest |
| Scoring.TotalPossibleScore | backend/disease_analyzer.py:149-152 | the denominator is never negative, and is zero exactly for a profile without symptoms, the case where Python divides by zero |
| Scoring.SeverityScoreAppend | backend/disease_analyzer.py:142-146 | each further occurrence of a weighted code adds weight * 1.2 again |
| Scoring.SeverityScoreNonNegative | backend/disease_analyzer.py:142-146 | with non-negative weights the severity bonus is non-negative |
| Scoring.RepeatedCode | backend/disease_analyzer.py:134-146 | repeating a code adds no primary or secondary hit, only its severity bonus |
| Scoring.ScoreMonotone | backend/disease_analyzer.py:134-160 | appending a code never lowers the score |
| Scoring.BaseWeightsNonNegative | backend/disease_analyzer.py:52-73 | every authored profile has only non-negative severity weights, so `ScoreMonotone` applies to it |
| Scoring.MergeWeightsNonNegative | backend/disease_analyzer.py:98 | merging keeps the weights non-negative, so `ScoreMonotone` applies to the co-infection profiles too |
| Scoring.ScoreOfNothing | backend/disease_analyzer.py:149-160 | an empty patient list scores exactly 20 against any profile with symptoms |
| Scoring.DengueHallmarks | backend/disease_analyzer.py:127-160 | HF, BF and ROP score exactly 600/17 against dengue |
| Scoring.DengueHallmarksPrimary | backend/disease_analyzer.py:134-135 | the three dengue hallmarks are three primary hits |
| Scoring.DengueHallmarksOnlyPrimary | backend/disease_analyzer.py:138-146 | the three dengue hallmarks give no secondary hit and no severity bonus |
| Scoring.SharedCodeCountsTwice | backend/disease_analyzer.py:142-146 | against typhoid, CF once scores 456/16.5 and CF twice 612/16.5: the repeat raises only the severity bonus |
| Alignment.Max3 | backend/disease_analyzer.py:123 | the maximum of three values is one of them and at least each of them |
| Alignment.Cell | backend/disease_analyzer.py:115-123 | the table's recurrence: gaps along row 0 and column 0, the best of match, delete and insert elsewhere; `CellUpperBound`, `CellLowerBound` and `CellSymmetric` bound it and `FillRow` ties the array to it |
| Alignment.Align | backend/disease_analyzer.py:106-125 | the last cell of the table; `AlignBounds`, `AlignSelf` and `AlignEmpty` state its range, symmetry and edge cases |
| Alignment.CellUpperBound | backend/disease_analyzer.py:115-123 | no cell beats matching the shorter prefix fully and gapping the rest |
| Alignment.CellLowerBound | backend/disease_analyzer.py:115-123 | no cell is worse than gapping every symbol |
| Alignment.CellSymmetric | backend/disease_analyzer.py:118-123 | swapping the two sequences transposes the table |
| Alignment.DiagonalOfSelf | backend/disease_analyzer.py:118-123 | the diagonal of a sequence against itself holds 3 * i |
| Alignment.AlignSelf | backend/disease_analyzer.py:106-125 | aligning a sequence with itself scores 3 per symbol |
| Alignment.AlignEmpty | backend/disease_analyzer.py:115-116 | aligning with the empty sequence scores -2 per symbol |
| Alignment.AlignBounds | backend/disease_analyzer.py:106-125 | every score lies between all-gaps and the best match bound, and the score is symmetric |
| Alignment.AlignExamples | backend/disease_analyzer.py:106-125 | [A,B,C] against itself scores 9; [A] against [B] scores -1 |
| Analyzer.DiseaseAnalyzer.NeedlemanWunsch | backend/disease_analyzer.py:106-125 | the nested loops fill the table cell by cell and return the recurrence's last cell |
| Analyzer.FillRow | backend/disease_analyzer.py:119-123 | one pass of the inner loop stores the recurrence's value in every cell of row i, so the first i + 1 rows agree with the recurrence, and leaves column 0 below row i untouched |
| Analyzer.DiseaseAnalyzer.constructor | backend/disease_analyzer.py:12-76 | the table is the symptom table; the registry holds the four authored profiles and then the six identifiers in loop order, each with the merge of its two base profiles; keys are distinct |
| Analyzer.DiseaseAnalyzer.GenerateCoinfectionProfiles | backend/disease_analyzer.py:78-90 | the key order gains the six identifiers at the end, and the registry becomes the generated table over the six pairs, with the key invariant kept |
| Analyzer.DiseaseAnalyzer.GenerateRow | backend/disease_analyzer.py:82-90 | one pass of the inner loop stores the merges of row i and moves the state to the start of row i + 1 |
| Analyzer.DiseaseAnalyzer.Diagnose | backend/disease_analyzer.py:162-184 | the two loops and the sort compute the specification; they fail exactly when a base profile has no symptoms, and never fail on the shipped registry |
| Analyzer.DiseaseAnalyzer.ShippedScorable | backend/disease_analyzer.py:52-73 | every base profile of the shipped registry can be scored |
| Analyzer.DiseaseAnalyzer.ShippedWeightsNonNegative | backend/disease_analyzer.py:52-98 | every profile of the shipped registry, base or merged, has non-negative weights |
| Analyzer.DiseaseAnalyzer.ShippedScoreMonotone | backend/disease_analyzer.py:127-160 | on the shipped registry, adding a code never lowers any profile's score |
| Analyzer.GeneratedOutside | backend/disease_analyzer.py:87-90 | a name without an underscore keeps its original profile through generation |
| Analyzer.GeneratedTable | backend/disease_analyzer.py:78-90 | the registry after storing the merge of each pair in turn; `GeneratedKeys`, `GeneratedAt` and `GeneratedElsewhere` state its keys and values, and `GenerateCoinfectionProfiles` is proved to reach it |
| Analyzer.GeneratedKeys | backend/disease_analyzer.py:87-90 | after generation the keys are the original keys plus the identifiers |
| Analyzer.GeneratedAt | backend/disease_analyzer.py:87-90 | the k-th identifier holds the merge of the original profiles of the k-th pair |
| Analyzer.GeneratedElsewhere | backend/disease_analyzer.py:87-90 | an original key that is no identifier keeps its profile |
| Analyzer.GenerateStep | backend/disease_analyzer.py:83-90 | the step at (i, j) reads the two original base profiles and extends the generated table by one pair |
| Analyzer.GenerateRowEnd | backend/disease_analyzer.py:81-82 | the end of row i is the start of row i + 1 |
| Analyzer.GenerateNamesStep | backend/disease_analyzer.py:87 | each store extends the key order by the new identifier |
| Analyzer.GenerateDone | backend/disease_analyzer.py:78-90 | after both loops the key order is distinct, matches the keys, and each identifier holds its merge |
| Analyzer.GenerateDoneKeys | backend/disease_analyzer.py:78-90 | after both loops the key order is distinct and lists exactly the original keys and the identifiers |
| Analyzer.GenerateDoneValues | backend/disease_analyzer.py:78-90 | after both loops each identifier holds its merge and every other key its original profile |
| Diagnosis.Clamp | backend/disease_analyzer.py:170 | the result lies in [20, 100] and is the input when the input does |
| Diagnosis.Put | backend/disease_analyzer.py:170 | a store leaves the stored entry in the results and grows them by at most one; `GetPut` and `PutFresh` state the rest |
| Diagnosis.Get | backend/disease_analyzer.py:176 | a lookup returns the default or a value stored under that name |
| Diagnosis.GetPut | backend/disease_analyzer.py:170 | reading a key back gives the value last stored there, and other keys are unaffected |
| Diagnosis.PutFresh | backend/disease_analyzer.py:170 | storing a new key appends it |
| Diagnosis.GetIgnoresOthers | backend/disease_analyzer.py:176 | entries under other names do not affect a lookup |
| Diagnosis.GetAbsent | backend/disease_analyzer.py:176 | a missing name reads as the default 0 |
| Diagnosis.BaseConfidence | backend/disease_analyzer.py:169-170 | a base confidence lies in [20, 100] |
| Diagnosis.BaseFrom | backend/disease_analyzer.py:167-170 | the first loop, position by position; `BaseFromResult` proves it fails exactly when a base profile has no symptoms and otherwise appends `BaseEntries` |
| Diagnosis.BaseEntries | backend/disease_analyzer.py:167-170 | the base entries in registry order; `BaseEntriesShape`, `BaseEntriesAt` and `BaseEntriesConcat` state their contents |
| Diagnosis.IndividualScores | backend/disease_analyzer.py:176 | one looked-up score per piece of the identifier |
| Diagnosis.CombinedConfidence | backend/disease_analyzer.py:179 | `sum * 0.8 / len`; `CombinedBound` proves it is at most 0.8 times any bound of the scores |
| Diagnosis.CoFrom | backend/disease_analyzer.py:173-182 | the second loop, position by position; `CoFromResult` proves it appends `CoEntries` |
| Diagnosis.CoEntries | backend/disease_analyzer.py:173-182 | the co-infections above 40 in registry order; `CoEntriesShape` and `NoCoEntries` state their contents |
| Diagnosis.DiagnoseSpec | backend/disease_analyzer.py:162-184 | normalise, run the two loops, sort; `DiagnoseOutcome` and `DiagnoseGuarantees` state its failure case and its output, and `Analyzer.DiseaseAnalyzer.Diagnose` is proved to compute it |
| Diagnosis.InsertByConfidence | backend/disease_analyzer.py:184 | inserting into a sorted list keeps it sorted and adds exactly the entry |
| Diagnosis.SortByConfidence | backend/disease_analyzer.py:184 | the sorted list is a permutation of the results, in non-increasing confidence |
| Diagnosis.InsertStable | backend/disease_analyzer.py:184 | insertion keeps the relative order of entries of equal confidence |
| Diagnosis.SortStable | backend/disease_analyzer.py:184 | the sort is stable: entries of any one confidence keep their relative order |
| Diagnosis.SortSorted | backend/disease_analyzer.py:184 | sorting an already ordered list changes nothing |
| Diagnosis.BaseEntriesShape | backend/disease_analyzer.py:167-170 | the first loop reports every base disease with its clamped score, and nothing else |
| Diagnosis.BaseEntriesConcat | backend/disease_analyzer.py:167-170 | the first loop over a concatenation is the first loop over each part |
| Diagnosis.BaseEntriesAt | backend/disease_analyzer.py:167-170 | over base names only, the k-th entry is the k-th name with its clamped score |
| Diagnosis.NoBaseEntries | backend/disease_analyzer.py:168 | names that hold an underscore are skipped by the first loop |
| Diagnosis.BaseEntriesOfRegistry | backend/disease_analyzer.py:167-170 | on base names followed by identifiers, the first loop reports the base names in order |
| Diagnosis.BaseEntriesAre | backend/disease_analyzer.py:167-170 | on base names followed by identifiers, the first loop yields a given list when that list holds each base name with its clamped score, position by position |
| Diagnosis.BaseStep | backend/disease_analyzer.py:167-170 | one step of the first loop: skip an identifier, or score a base disease |
| Diagnosis.BaseFromScored | backend/disease_analyzer.py:169-170 | a scored step appends a fresh name with its clamped confidence |
| Diagnosis.BaseFromResult | backend/disease_analyzer.py:167-170 | the first loop fails exactly when some base profile has no symptoms, and otherwise appends the base entries |
| Diagnosis.ScoresIgnoreCoinfections | backend/disease_analyzer.py:175-176 | the pieces of an identifier are looked up among base entries only |
| Diagnosis.CoFromResult | backend/disease_analyzer.py:173-182 | the second loop appends the co-infections above the threshold to the base entries |
| Diagnosis.DiagnoseOutcome | backend/disease_analyzer.py:162-184 | `diagnose` fails exactly when a base profile has no symptoms, and otherwise returns the sorted base and co-infection entries |
| Diagnosis.CombinedBound | backend/disease_analyzer.py:176-179 | with every stored confidence at most b, a combined confidence is at most 0.8 * b |
| Diagnosis.CoEntriesShape | backend/disease_analyzer.py:173-182 | a co-infection is reported exactly when its combined confidence exceeds 40, and then with that confidence |
| Diagnosis.NoCoEntries | backend/disease_analyzer.py:181 | when no combined confidence exceeds 40, no co-infection is reported |
| Diagnosis.DiagnoseGuarantees | backend/disease_analyzer.py:162-184 | base diseases appear with their clamped score in [20, 100]; co-infections appear exactly when above 40, with a value in (40, 80]; the output is a permutation of the results in non-increasing order, and ties keep registry order |
| Diagnosis.GetBaseEntry | backend/disease_analyzer.py:167-176 | after the first loop, the value a base disease reads back from the results is its clamped match score |
| Diagnosis.PairConfidence | backend/disease_analyzer.py:175-179 | the combined confidence of `d1_d2` is the average of the two base values read from the results, times 0.8 |
| Diagnosis.DiagnosePair | backend/disease_analyzer.py:162-184 | a registered co-infection `d1_d2` is reported exactly when the average of the two base match scores times 0.8 exceeds 40, and then with that value |
| Diagnosis.FloorEntries | backend/disease_analyzer.py:169-170 | with no codes every base disease scores exactly 20 |
| Diagnosis.FloorNoCoinfections | backend/disease_analyzer.py:179-182 | with all base scores at 20, no co-infection reaches the threshold |
| Diagnosis.FloorSorted | backend/disease_analyzer.py:184 | sorting entries that all score 20 keeps registry order |
| Diagnosis.DiagnoseNothingRecognised | backend/disease_analyzer.py:162-184 | with no recognised symptom every base disease is reported at exactly 20, in registry order, and no co-infection is reported |
| Diagnosis.DiagnoseNothingRecognisedOnRegistry | backend/disease_analyzer.py:162-184 | on base names followed by identifiers, no recognised symptom yields each base name at 20 in order |
| Diagnosis.DiagnoseBaseOnly | backend/disease_analyzer.py:162-184 | when no co-infection reaches the threshold and the base entries are already in order, `diagnose` returns the base entries unchanged |
| Shipped.ShippedRegistry | backend/disease_analyzer.py:52-90 | the constructed registry has exactly ten distinct keys: four scorable base names, then six identifiers |
| Shipped.DiagnoseEmptyShipped | backend/disease_analyzer.py:162-184 | on the shipped registry, no recognised symptom yields dengue, malaria, typhoid and covid19 at 20, in that order |
| Shipped.HallmarkCodes | backend/disease_analyzer.py:163 | high_fever, biphasic_fever and retro_orbital_pain normalise to HF, BF and ROP |
| Shipped.HallmarksMissMalaria | backend/disease_analyzer.py:127-160 | the hallmarks share no symptom with malaria, which scores 20 |
| Shipped.HallmarksMissTyphoid | backend/disease_analyzer.py:127-160 | the hallmarks share no symptom with typhoid, which scores 20 |
| Shipped.HallmarksAgainstCovid19 | backend/disease_analyzer.py:127-160 | high fever is one covid19 secondary symptom: 1.5 of 24 points is 6.25 percent, so covid19 scores 20 |
| Shipped.HallmarkBaseEntries | backend/disease_analyzer.py:167-170 | on the shipped registry the first loop yields dengue at 600/17, then malaria, typhoid and covid19 at 20 |
| Shipped.HallmarkNoCoinfections | backend/disease_analyzer.py:173-182 | with those base results no co-infection exceeds 40, since each combined value is at most 0.8 * 600/17 |
| Shipped.DiagnoseHallmarksShipped | backend/disease_analyzer.py:162-184 | ticking the three dengue hallmarks on the shipped analyser returns dengue at 600/17, then malaria, typhoid and covid19 at 20, and no co-infection |
| Scenarios.DiagnoseHallmarksOnNewAnalyzer | backend/disease_analyzer.py:11-184 | a freshly constructed analyser given the three dengue hallmarks returns dengue at 600/17, then malaria, typhoid and covid19 at 20, and no co-infection |
| Scenarios.DiagnoseNothingOnNewAnalyzer | backend/disease_analyzer.py:11-184 | a freshly constructed analyser given no recognised symptom returns the four base diseases at 20, in registry order |
| Ui.CheckboxNames | frontend/static/app.js:4-33 | a name is offered exactly when some category lists it |
| Ui.CheckboxesMatchVocabulary | frontend/static/app.js:4-33 | the checkboxes offer exactly the names of the analyser's symptom table |
| Ui.CheckboxesFlattened | frontend/static/app.js:4-33 | the checkbox names are the categories' lists, in display order |
| Ui.CheckboxesInVocabulary | frontend/static/app.js:4-33 | every checkbox name is in the analyser's symptom table |
| Ui.VocabularyInCheckboxes | frontend/static/app.js:4-33 | every name of the analyser's symptom table has a checkbox |
| Ui.SelectionFullyRecognised | frontend/static/app.js:119 | a posted selection of checkbox names loses no name in normalisation |
| Ui.Delete | frontend/static/app.js:99 | deletion removes exactly the name, keeps the set duplicate-free and never grows it |
| Ui.DeleteAbsent | frontend/static/app.js:99 | deleting an absent name changes nothing |
| Ui.DeleteAppend | frontend/static/app.js:99-101 | deleting a name just added undoes the addition |
| Ui.Toggled | frontend/static/app.js:97-103 | a toggle flips the name's membership, leaves every other name alone, and keeps the set duplicate-free |
| Ui.ToggledTwice | frontend/static/app.js:97-103 | toggling twice restores the set, and restores the order too when the name was absent |
| Ui.DiseaseUi.constructor | frontend/static/app.js:2-33 | the selection starts empty and the categories are the authored ones |
| Ui.DiseaseUi.UpdateSymptoms | frontend/static/app.js:97-103 | the selection becomes the toggled selection and stays duplicate-free |
| Ui.DiseaseUi.AnalyzeDisease | frontend/static/app.js:106-121 | an empty selection gives only the message; any other is posted as is, in insertion order |
| Ui.FormatSymptomLabel | frontend/static/app.js:93-95 | the label has the length of the name and holds no underscore |
| Ui.FormatSnakeCaseAt | frontend/static/app.js:93-95 | on a snake-case name, each position is a space for an underscore, upper-case at a word start, and unchanged otherwise |
| Ui.FormatSnakeCase | frontend/static/app.js:93-95 | the same for every position at once |
| Ui.LabelRoundTrip | frontend/static/app.js:93-95 | a snake-case name is recovered from its label |
| Ui.CheckboxLabelsRoundTrip | frontend/static/app.js:4-33 | every checkbox name is snake case, so the caption the page shows for it leads back to the name |
| Ui.VocabularySnakeCase | backend/disease_analyzer.py:13-49 | every name of the symptom table is made only of lower-case ASCII letters and underscores |
| Ui.PartitionSpec | frontend/static/app.js:148-157 | every result lands in exactly one of the two lists, each list keeps the order, and together they hold each result as often as the results do |
| Ui.DiseaseUi.DisplayResults | frontend/static/app.js:148-183 | the loop builds the single diseases and the co-infections in order, and the filter keeps the co-infections above 40 |
| Ui.SignificantFilterRedundant | frontend/static/app.js:183 | on what `diagnose` returns, the filter above 40 removes no co-infection |
| Ui.GetSeverityLevel | frontend/static/app.js:176-180 | Severe exactly from 70, Moderate exactly in [50, 70), Mild exactly below 50 |
| Ui.SeverityMonotone | frontend/static/app.js:176-180 | a higher confidence never gives a less urgent band |

## Left out

- HTTP glue is not part of this model: Flask routing, CORS, JSON (de)serialisation, template rendering and the module-level analyser singleton (`api/index.py`, `backend/app.py`). Logging setup in `backend/__init__.py` is left out too.
- Page DOM construction is left out: `initializeUI`, `createCategorySection`, `createSymptomItem`, `createAnalyzeButton` and the `innerHTML` building. So are the `fetch` call, its error path and the `high-confidence` class. These are UI and I/O.
- `toFixed(2)` formatting and the display strings built from names (`replace('_', ' ')`, `join(' + ')`) are left out. They are presentation only.
- `results.results || results` in `displayResults` is left out. The model takes the list of pairs directly, because the unwrapping depends on the JSON shape from the HTTP layer.
- Python floats are IEEE-754 doubles, and the model uses exact rationals. Values such as 600/17 hold exactly only as rationals.
- The numpy float matrix of `needleman_wunsch` is an `int` array. It only ever holds integers.
- Symptoms.Lower: lower-cases ASCII letters only. Python's Unicode `lower()` also changes other letters, and some non-ASCII letters lower-case to ASCII ones: the Kelvin sign U+212A becomes `k`, so Python recognises `"WEA\u212aNESS"` as `weakness` (code WK) while the model drops it.
- Ui.UpperChar: upper-cases ASCII letters only. `\w` in the page's regular expression is ASCII-only, but `toUpperCase` covers Unicode.
- Profiles.MergeDiseaseProfiles: `list(set(...))` yields an unspecified order in Python. The model keeps the first occurrence of each code. The properties stated about the merge (no duplicates, the union as set) do not depend on the order, and merged lists are never scored.
- The default `1.0` of `severity_weights.get(symptom, 1.0)` is never used, because the sum only ranges over weighted codes. The model reads the weight directly.
- `diagnose` is only modelled on registries whose key order lists each key once, which a Python dictionary guarantees.
