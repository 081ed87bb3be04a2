/** The diagnosis pipeline as a specification (backend/disease_analyzer.py, `diagnose`):
    the results dictionary built by the two loops, then the stable descending sort. */
module Diagnosis {

  import opened Wrappers
  import opened Seqs
  import opened Symptoms
  import opened Profiles
  import opened Scoring

  /** One (disease, confidence) pair of the results. */
  datatype Entry = Entry(disease: string, confidence: real)

  /** A co-infection is kept only above this combined confidence. */
  const CoinfectionThreshold: real := 40.0
  /** The weight applied to the average of the individual confidences. */
  const CoinfectionFactor: real := 0.8

  /** `max(20, min(100, x))`. */
  function Clamp(x: real): (r: real)
    ensures 20.0 <= r <= 100.0
    ensures 20.0 <= x <= 100.0 ==> r == x
    ensures x < 20.0 ==> r == 20.0
    ensures x > 100.0 ==> r == 100.0
  {
    if x > 100.0 then 100.0 else if x < 20.0 then 20.0 else x
  }

  // The results dictionary: entries in insertion order, one per key.

  /** `results[name] = v`: a new key goes to the end, an existing key is updated in place. */
  function Put(r: seq<Entry>, name: string, v: real): (stored: seq<Entry>)
    ensures Entry(name, v) in stored
    ensures |r| <= |stored| <= |r| + 1
  {
    if r == [] then [Entry(name, v)]
    else if r[0].disease == name then [Entry(name, v)] + r[1..]
    else [r[0]] + Put(r[1..], name, v)
  }

  /** `results.get(name, default)`. */
  function Get(r: seq<Entry>, name: string, default: real): (value: real)
    ensures value == default || Entry(name, value) in r
  {
    if r == [] then default
    else if r[0].disease == name then r[0].confidence
    else Get(r[1..], name, default)
  }

  /** Reading a key back gives the value last put there; other keys are untouched. */
  lemma {:induction false} GetPut(r: seq<Entry>, name: string, v: real, other: string, default: real)
    ensures Get(Put(r, name, v), name, default) == v
    ensures other != name ==> Get(Put(r, name, v), other, default) == Get(r, other, default)
    decreases |r|
  {
    if r != [] && r[0].disease != name {
      GetPut(r[1..], name, v, other, default);
    }
  }

  /** Putting a key that is not yet present appends it. */
  lemma {:induction false} PutFresh(r: seq<Entry>, name: string, v: real)
    requires forall e :: e in r ==> e.disease != name
    ensures Put(r, name, v) == r + [Entry(name, v)]
    decreases |r|
  {
    if r != [] {
      PutFresh(r[1..], name, v);
      assert r == [r[0]] + r[1..];
    }
  }

  /** Looking up a key that the appended entries do not hold ignores them. */
  lemma {:induction false} GetIgnoresOthers(r: seq<Entry>, extra: seq<Entry>, name: string, default: real)
    requires forall e :: e in extra ==> e.disease != name
    ensures Get(r + extra, name, default) == Get(r, name, default)
    decreases |r|
  {
    if r == [] {
      assert r + extra == extra;
      GetAbsent(extra, name, default);
    } else {
      assert (r + extra)[1..] == r[1..] + extra;
      GetIgnoresOthers(r[1..], extra, name, default);
    }
  }

  lemma {:induction false} GetAbsent(r: seq<Entry>, name: string, default: real)
    requires forall e :: e in r ==> e.disease != name
    ensures Get(r, name, default) == default
    decreases |r|
  {
    if r != [] {
      GetAbsent(r[1..], name, default);
    }
  }

  // The first loop: base diseases.

  /** Every profile of a base disease has at least one symptom, so it can be scored. */
  predicate Scorable(names: seq<string>, profiles: map<string, DiseaseProfile>)
    requires forall n :: n in names ==> n in profiles
  {
    forall n :: n in names && '_' !in n ==> HasSymptoms(profiles[n])
  }

  /** The clamped confidence of one base disease. */
  function BaseConfidence(codes: seq<Code>, profile: DiseaseProfile): (c: real)
    requires HasSymptoms(profile)
    ensures 20.0 <= c <= 100.0
  {
    Clamp(CalculateSymptomMatchScore(codes, profile).value)
  }

  /** The first loop from position `i` on, with the results so far in `acc`. */
  function BaseFrom(names: seq<string>, profiles: map<string, DiseaseProfile>, codes: seq<Code>,
                    i: nat, acc: seq<Entry>): Result<seq<Entry>, ScoreError>
    requires i <= |names|
    requires forall n :: n in names ==> n in profiles
    decreases |names| - i
  {
    if i == |names| then Success(acc)
    else if '_' in names[i] then BaseFrom(names, profiles, codes, i + 1, acc)
    else
      match CalculateSymptomMatchScore(codes, profiles[names[i]])
      case Failure(e) => Failure(e)
      case Success(score) => BaseFrom(names, profiles, codes, i + 1, Put(acc, names[i], Clamp(score)))
  }

  /** What the first loop contributes: each base disease, in registry order, with its clamped score. */
  function BaseEntries(names: seq<string>, profiles: map<string, DiseaseProfile>, codes: seq<Code>): seq<Entry>
    requires forall n :: n in names ==> n in profiles
    requires Scorable(names, profiles)
  {
    if names == [] then []
    else
      (if '_' in names[0] then [] else [Entry(names[0], BaseConfidence(codes, profiles[names[0]]))])
      + BaseEntries(names[1..], profiles, codes)
  }

  // The second loop: co-infections.

  /** `[results.get(d, 0) for d in diseases]`. */
  function IndividualScores(r: seq<Entry>, parts: seq<string>): (scores: seq<real>)
    ensures |scores| == |parts|
  {
    seq(|parts|, k requires 0 <= k < |parts| => Get(r, parts[k], 0.0))
  }

  /** `(sum(individual_scores) * 0.8) / len(individual_scores)`. */
  function CombinedConfidence(scores: seq<real>): real
    requires |scores| > 0
  {
    Sum(scores) * CoinfectionFactor / |scores| as real
  }

  /** The second loop from position `i` on, with the results so far in `acc`. */
  function CoFrom(names: seq<string>, i: nat, acc: seq<Entry>): seq<Entry>
    requires i <= |names|
    decreases |names| - i
  {
    if i == |names| then acc
    else if '_' !in names[i] then CoFrom(names, i + 1, acc)
    else
      var scores := IndividualScores(acc, Split(names[i]));
      if |scores| > 0 && CombinedConfidence(scores) > CoinfectionThreshold then
        CoFrom(names, i + 1, Put(acc, names[i], CombinedConfidence(scores)))
      else
        CoFrom(names, i + 1, acc)
  }

  /** The combined confidence of a co-infection identifier, from the base results. */
  function CoinfectionConfidence(base: seq<Entry>, name: string): real
  {
    CombinedConfidence(IndividualScores(base, Split(name)))
  }

  /** What the second loop contributes: each co-infection above the threshold, in registry order. */
  function CoEntries(names: seq<string>, base: seq<Entry>): seq<Entry>
  {
    if names == [] then []
    else
      (if '_' in names[0] && CoinfectionConfidence(base, names[0]) > CoinfectionThreshold
       then [Entry(names[0], CoinfectionConfidence(base, names[0]))] else [])
      + CoEntries(names[1..], base)
  }

  // The final sort: `sorted(results.items(), key=lambda x: x[1], reverse=True)`.

  predicate NonIncreasing(r: seq<Entry>)
  {
    forall a, b :: 0 <= a < b < |r| ==> r[a].confidence >= r[b].confidence
  }

  /** Putting an entry in front of a sorted list keeps it sorted when the entry is at
      least the list's first. */
  lemma ConsNonIncreasing(x: Entry, rest: seq<Entry>)
    requires NonIncreasing(rest)
    requires rest == [] || x.confidence >= rest[0].confidence
    ensures NonIncreasing([x] + rest)
  {
    var r := [x] + rest;
    forall a, b | 0 <= a < b < |r| ensures r[a].confidence >= r[b].confidence {
      if a == 0 && b > 1 {
        assert r[b] == rest[b - 1] && rest[0].confidence >= rest[b - 1].confidence;
      }
    }
  }

  /** Insert `e` before the first entry whose confidence does not exceed its own. */
  function InsertByConfidence(e: Entry, sorted: seq<Entry>): (r: seq<Entry>)
    ensures multiset(r) == multiset{e} + multiset(sorted)
    ensures r[0] == e || (sorted != [] && r[0] == sorted[0])
    ensures NonIncreasing(sorted) ==> NonIncreasing(r)
  {
    if sorted == [] || e.confidence >= sorted[0].confidence then
      assert NonIncreasing(sorted) ==> NonIncreasing([e] + sorted) by {
        if NonIncreasing(sorted) {
          ConsNonIncreasing(e, sorted);
        }
      }
      [e] + sorted
    else
      var rest := InsertByConfidence(e, sorted[1..]);
      assert sorted == [sorted[0]] + sorted[1..];
      assert NonIncreasing(sorted) ==> NonIncreasing([sorted[0]] + rest) by {
        if NonIncreasing(sorted) {
          assert NonIncreasing(sorted[1..]);
          ConsNonIncreasing(sorted[0], rest);
        }
      }
      [sorted[0]] + rest
  }

  /** A stable sort by descending confidence. */
  function SortByConfidence(r: seq<Entry>): (s: seq<Entry>)
    ensures multiset(s) == multiset(r)
    ensures NonIncreasing(s)
  {
    if r == [] then []
    else
      assert r == [r[0]] + r[1..];
      InsertByConfidence(r[0], SortByConfidence(r[1..]))
  }

  /** The entries with confidence `v`. */
  function ConfidenceIs(v: real): Entry -> bool
  {
    (e: Entry) => e.confidence == v
  }

  lemma {:induction false} InsertStable(e: Entry, sorted: seq<Entry>, v: real)
    ensures Filter(ConfidenceIs(v), InsertByConfidence(e, sorted))
         == (if e.confidence == v then [e] else []) + Filter(ConfidenceIs(v), sorted)
    decreases |sorted|
  {
    if sorted == [] || e.confidence >= sorted[0].confidence {
      assert ([e] + sorted)[1..] == sorted;
    } else {
      InsertStable(e, sorted[1..], v);
      assert ([sorted[0]] + InsertByConfidence(e, sorted[1..]))[1..] == InsertByConfidence(e, sorted[1..]);
    }
  }

  /** Stability: the entries of any one confidence keep their relative order. */
  lemma {:induction false} SortStable(r: seq<Entry>, v: real)
    ensures Filter(ConfidenceIs(v), SortByConfidence(r)) == Filter(ConfidenceIs(v), r)
    decreases |r|
  {
    if r != [] {
      SortStable(r[1..], v);
      InsertStable(r[0], SortByConfidence(r[1..]), v);
    }
  }

  /** Sorting a list that is already in non-increasing order changes nothing. */
  lemma {:induction false} SortSorted(r: seq<Entry>)
    requires NonIncreasing(r)
    ensures SortByConfidence(r) == r
    decreases |r|
  {
    if r != [] {
      SortSorted(r[1..]);
      assert r == [r[0]] + r[1..];
    }
  }

  // The whole pipeline.

  /** `diagnose`: normalise, score the base diseases, combine the co-infections, sort.
      Fails when a base disease has a profile without symptoms. */
  function DiagnoseSpec(symptomMap: map<string, Code>, names: seq<string>,
                        profiles: map<string, DiseaseProfile>, symptoms: seq<string>): Result<seq<Entry>, ScoreError>
    requires forall n :: n in names ==> n in profiles
  {
    var codes := Normalize(symptomMap, symptoms);
    match BaseFrom(names, profiles, codes, 0, [])
    case Failure(e) => Failure(e)
    case Success(base) => Success(SortByConfidence(CoFrom(names, 0, base)))
  }

  // What the two loops compute.

  /** Splitting a registry at position `i`: the head is not repeated in the tail. */
  lemma DistinctHead(names: seq<string>, i: nat)
    requires Distinct(names) && i < |names|
    ensures names[i..] == [names[i]] + names[i + 1..]
    ensures names[i..][0] == names[i] && names[i..][1..] == names[i + 1..]
    ensures forall m :: m in names[i..] <==> m == names[i] || m in names[i + 1..]
    ensures names[i] !in names[i + 1..]
  {
    var tail := names[i + 1..];
    assert forall k :: 0 <= k < |tail| ==> tail[k] == names[i + 1 + k];
  }

  /** Every base entry is a base disease of the registry with a clamped score. */
  lemma {:induction false} BaseEntriesShape(names: seq<string>, profiles: map<string, DiseaseProfile>, codes: seq<Code>)
    requires forall n :: n in names ==> n in profiles
    requires Scorable(names, profiles)
    ensures forall e :: e in BaseEntries(names, profiles, codes) ==>
              e.disease in names && '_' !in e.disease && 20.0 <= e.confidence <= 100.0
              && e.confidence == BaseConfidence(codes, profiles[e.disease])
    ensures forall n :: n in names && '_' !in n ==>
              Entry(n, BaseConfidence(codes, profiles[n])) in BaseEntries(names, profiles, codes)
    decreases |names|
  {
    if names != [] {
      BaseEntriesShape(names[1..], profiles, codes);
      assert names == [names[0]] + names[1..];
    }
  }

  /** The base entries of a concatenation are those of each part. */
  lemma {:induction false} BaseEntriesConcat(a: seq<string>, b: seq<string>,
                                             profiles: map<string, DiseaseProfile>, codes: seq<Code>)
    requires forall n :: n in a + b ==> n in profiles
    requires Scorable(a + b, profiles)
    ensures forall n :: n in a ==> n in profiles
    ensures forall n :: n in b ==> n in profiles
    ensures Scorable(a, profiles) && Scorable(b, profiles)
    ensures BaseEntries(a + b, profiles, codes) == BaseEntries(a, profiles, codes) + BaseEntries(b, profiles, codes)
    decreases |a|
  {
    if a == [] {
      assert a + b == b;
    } else {
      assert (a + b)[0] == a[0];
      assert (a + b)[1..] == a[1..] + b;
      BaseEntriesConcat(a[1..], b, profiles, codes);
      var head := if '_' in a[0] then [] else [Entry(a[0], BaseConfidence(codes, profiles[a[0]]))];
      ConcatAssoc(head, BaseEntries(a[1..], profiles, codes), BaseEntries(b, profiles, codes));
    }
  }

  /** Over base names only, the k-th base entry is the k-th name with its clamped score. */
  lemma {:induction false} BaseEntriesAt(names: seq<string>, profiles: map<string, DiseaseProfile>, codes: seq<Code>)
    requires forall n :: n in names ==> n in profiles
    requires forall k :: 0 <= k < |names| ==> '_' !in names[k] && HasSymptoms(profiles[names[k]])
    ensures Scorable(names, profiles)
    ensures |BaseEntries(names, profiles, codes)| == |names|
    ensures forall k :: 0 <= k < |names| ==>
              BaseEntries(names, profiles, codes)[k] == Entry(names[k], BaseConfidence(codes, profiles[names[k]]))
    decreases |names|
  {
    if names != [] {
      BaseEntriesAt(names[1..], profiles, codes);
      var head := Entry(names[0], BaseConfidence(codes, profiles[names[0]]));
      var rest := BaseEntries(names[1..], profiles, codes);
      assert BaseEntries(names, profiles, codes) == [head] + rest;
      forall k | 1 <= k < |names|
        ensures ([head] + rest)[k] == Entry(names[k], BaseConfidence(codes, profiles[names[k]]))
      {
        assert names[1..][k - 1] == names[k];
      }
    }
  }

  /** Identifiers that hold an underscore contribute no base entry. */
  lemma {:induction false} NoBaseEntries(names: seq<string>, profiles: map<string, DiseaseProfile>, codes: seq<Code>)
    requires forall n :: n in names ==> n in profiles
    requires forall n :: n in names ==> '_' in n
    ensures Scorable(names, profiles)
    ensures BaseEntries(names, profiles, codes) == []
    decreases |names|
  {
    if names != [] {
      NoBaseEntries(names[1..], profiles, codes);
    }
  }

  /** A registry of base names followed by identifiers: the first loop yields one entry
      per base name, in order, with its clamped score. */
  lemma BaseEntriesOfRegistry(singles: seq<string>, ids: seq<string>,
                              profiles: map<string, DiseaseProfile>, codes: seq<Code>)
    requires forall n :: n in singles + ids ==> n in profiles
    requires forall k :: 0 <= k < |singles| ==> '_' !in singles[k] && HasSymptoms(profiles[singles[k]])
    requires forall n :: n in ids ==> '_' in n
    ensures Scorable(singles + ids, profiles)
    ensures |BaseEntries(singles + ids, profiles, codes)| == |singles|
    ensures forall k :: 0 <= k < |singles| ==>
              BaseEntries(singles + ids, profiles, codes)[k] == Entry(singles[k], BaseConfidence(codes, profiles[singles[k]]))
  {
    assert Scorable(singles + ids, profiles) by {
      forall n | n in singles + ids && '_' !in n ensures HasSymptoms(profiles[n]) {
        assert n in singles;
      }
    }
    BaseEntriesConcat(singles, ids, profiles, codes);
    BaseEntriesAt(singles, profiles, codes);
    NoBaseEntries(ids, profiles, codes);
    assert BaseEntries(singles, profiles, codes) + [] == BaseEntries(singles, profiles, codes);
  }

  /** The same, for a list of expected entries given position by position. */
  lemma BaseEntriesAre(singles: seq<string>, ids: seq<string>,
                       profiles: map<string, DiseaseProfile>, codes: seq<Code>, expected: seq<Entry>)
    requires forall n :: n in singles + ids ==> n in profiles
    requires forall k :: 0 <= k < |singles| ==> '_' !in singles[k] && HasSymptoms(profiles[singles[k]])
    requires forall n :: n in ids ==> '_' in n
    requires |expected| == |singles|
    requires forall k :: 0 <= k < |singles| ==>
               expected[k] == Entry(singles[k], BaseConfidence(codes, profiles[singles[k]]))
    ensures Scorable(singles + ids, profiles)
    ensures BaseEntries(singles + ids, profiles, codes) == expected
  {
    BaseEntriesOfRegistry(singles, ids, profiles, codes);
  }

  /** One step of the first loop's specification: the head of `names[i..]` and the rest. */
  lemma BaseStep(names: seq<string>, profiles: map<string, DiseaseProfile>, codes: seq<Code>, i: nat)
    requires Distinct(names) && i < |names|
    requires forall n :: n in names ==> n in profiles
    ensures Scorable(names[i..], profiles)
        <==> ('_' in names[i] || HasSymptoms(profiles[names[i]])) && Scorable(names[i + 1..], profiles)
    ensures Scorable(names[i..], profiles) ==>
              BaseEntries(names[i..], profiles, codes)
              == (if '_' in names[i] then [] else [Entry(names[i], BaseConfidence(codes, profiles[names[i]]))])
                 + BaseEntries(names[i + 1..], profiles, codes)
  {
    DistinctHead(names, i);
  }

  /** One scored step of the first loop: a fresh name is appended with its confidence. */
  lemma BaseFromScored(names: seq<string>, profiles: map<string, DiseaseProfile>,
                       codes: seq<Code>, i: nat, acc: seq<Entry>)
    requires i < |names| && Distinct(names)
    requires forall n :: n in names ==> n in profiles
    requires forall e :: e in acc ==> e.disease !in names[i..]
    requires '_' !in names[i] && HasSymptoms(profiles[names[i]])
    ensures forall e :: e in acc + [Entry(names[i], BaseConfidence(codes, profiles[names[i]]))] ==>
              e.disease !in names[i + 1..]
    ensures BaseFrom(names, profiles, codes, i, acc)
         == BaseFrom(names, profiles, codes, i + 1, acc + [Entry(names[i], BaseConfidence(codes, profiles[names[i]]))])
  {
    DistinctHead(names, i);
    PutFresh(acc, names[i], BaseConfidence(codes, profiles[names[i]]));
  }

  /** The first loop succeeds exactly when every base profile can be scored, and then
      appends the base entries to what it started with. */
  lemma {:induction false} BaseFromResult(names: seq<string>, profiles: map<string, DiseaseProfile>,
                                          codes: seq<Code>, i: nat, acc: seq<Entry>)
    requires i <= |names| && Distinct(names)
    requires forall n :: n in names ==> n in profiles
    requires forall e :: e in acc ==> e.disease !in names[i..]
    ensures BaseFrom(names, profiles, codes, i, acc).Success? <==> Scorable(names[i..], profiles)
    ensures Scorable(names[i..], profiles) ==>
              BaseFrom(names, profiles, codes, i, acc) == Success(acc + BaseEntries(names[i..], profiles, codes))
    decreases |names| - i
  {
    if i < |names| {
      var n := names[i];
      DistinctHead(names, i);
      BaseStep(names, profiles, codes, i);
      if '_' in n {
        BaseFromResult(names, profiles, codes, i + 1, acc);
        if Scorable(names[i..], profiles) {
          assert [] + BaseEntries(names[i + 1..], profiles, codes) == BaseEntries(names[i + 1..], profiles, codes);
        }
      } else if HasSymptoms(profiles[n]) {
        var c := BaseConfidence(codes, profiles[n]);
        BaseFromScored(names, profiles, codes, i, acc);
        BaseFromResult(names, profiles, codes, i + 1, acc + [Entry(n, c)]);
        if Scorable(names[i + 1..], profiles) {
          ConcatAssoc(acc, [Entry(n, c)], BaseEntries(names[i + 1..], profiles, codes));
        }
      }
    } else {
      assert names[i..] == [];
      assert acc + [] == acc;
    }
  }

  /** Lookups of identifier pieces are answered by the base entries alone. */
  lemma ScoresIgnoreCoinfections(base: seq<Entry>, extra: seq<Entry>, name: string)
    requires forall e :: e in extra ==> '_' in e.disease
    ensures IndividualScores(base + extra, Split(name)) == IndividualScores(base, Split(name))
  {
    var parts := Split(name);
    forall k | 0 <= k < |parts|
      ensures Get(base + extra, parts[k], 0.0) == Get(base, parts[k], 0.0)
    {
      GetIgnoresOthers(base, extra, parts[k], 0.0);
    }
  }

  /** The second loop appends the co-infection entries to the base entries. */
  lemma {:induction false} CoFromResult(names: seq<string>, i: nat, base: seq<Entry>, extra: seq<Entry>)
    requires i <= |names| && Distinct(names)
    requires forall e :: e in base ==> '_' !in e.disease
    requires forall e :: e in extra ==> '_' in e.disease && e.disease !in names[i..]
    ensures CoFrom(names, i, base + extra) == base + extra + CoEntries(names[i..], base)
    decreases |names| - i
  {
    if i < |names| {
      var n := names[i];
      DistinctHead(names, i);
      assert names[i..][0] == n && names[i..][1..] == names[i + 1..];
      if '_' !in n {
        CoFromResult(names, i + 1, base, extra);
      } else {
        ScoresIgnoreCoinfections(base, extra, n);
        var c := CoinfectionConfidence(base, n);
        if c > CoinfectionThreshold {
          PutFresh(base + extra, n, c);
          CoFromResult(names, i + 1, base, extra + [Entry(n, c)]);
          ConcatAssoc(base, extra, [Entry(n, c)]);
          ConcatAssoc(base + extra, [Entry(n, c)], CoEntries(names[i + 1..], base));
        } else {
          CoFromResult(names, i + 1, base, extra);
        }
      }
    } else {
      assert names[i..] == [];
    }
  }

  /** A lookup of a base name in the base entries finds its clamped score. */
  lemma {:induction false} GetBaseEntry(names: seq<string>, profiles: map<string, DiseaseProfile>,
                                        codes: seq<Code>, d: string)
    requires forall n :: n in names ==> n in profiles
    requires Scorable(names, profiles)
    requires d in names && '_' !in d
    ensures HasSymptoms(profiles[d])
    ensures Get(BaseEntries(names, profiles, codes), d, 0.0) == BaseConfidence(codes, profiles[d])
    decreases |names|
  {
    assert forall n :: n in names[1..] ==> n in names;
    var rest := BaseEntries(names[1..], profiles, codes);
    if names[0] == d {
      assert BaseEntries(names, profiles, codes) == [Entry(d, BaseConfidence(codes, profiles[d]))] + rest;
    } else {
      assert d in names[1..];
      GetBaseEntry(names[1..], profiles, codes, d);
      if '_' in names[0] {
        assert BaseEntries(names, profiles, codes) == [] + rest;
        assert [] + rest == rest;
      } else {
        var e := Entry(names[0], BaseConfidence(codes, profiles[names[0]]));
        assert BaseEntries(names, profiles, codes) == [e] + rest;
        assert ([e] + rest)[1..] == rest;
      }
    }
  }

  /** The combined confidence of `d1_d2` is the two base confidences averaged, times 0.8. */
  lemma PairConfidence(base: seq<Entry>, d1: string, d2: string)
    requires '_' !in d1 && '_' !in d2
    ensures CoinfectionConfidence(base, CoinfectionName(d1, d2))
         == (Get(base, d1, 0.0) + Get(base, d2, 0.0)) * CoinfectionFactor / 2.0
  {
    SplitCoinfectionName(d1, d2);
    var scores := IndividualScores(base, [d1, d2]);
    assert scores == [Get(base, d1, 0.0), Get(base, d2, 0.0)];
    assert scores[1..] == [Get(base, d2, 0.0)];
    assert scores[1..][1..] == [];
    assert Sum(scores[1..]) == Get(base, d2, 0.0) + Sum([]);
    assert Sum(scores) == Get(base, d1, 0.0) + Get(base, d2, 0.0);
    assert CoinfectionConfidence(base, CoinfectionName(d1, d2)) == Sum(scores) * CoinfectionFactor / 2.0;
  }

  /** The outcome of the whole pipeline: a failure exactly when some base profile has
      no symptoms; otherwise the sorted base entries followed by the co-infection entries. */
  lemma DiagnoseOutcome(symptomMap: map<string, Code>, names: seq<string>,
                        profiles: map<string, DiseaseProfile>, symptoms: seq<string>)
    requires Distinct(names)
    requires forall n :: n in names ==> n in profiles
    ensures DiagnoseSpec(symptomMap, names, profiles, symptoms).Failure? <==> !Scorable(names, profiles)
    ensures Scorable(names, profiles) ==>
              var base := BaseEntries(names, profiles, Normalize(symptomMap, symptoms));
              DiagnoseSpec(symptomMap, names, profiles, symptoms) == Success(SortByConfidence(base + CoEntries(names, base)))
  {
    var codes := Normalize(symptomMap, symptoms);
    assert names[0..] == names;
    BaseFromResult(names, profiles, codes, 0, []);
    if Scorable(names, profiles) {
      var base := BaseEntries(names, profiles, codes);
      assert [] + base == base;
      BaseEntriesShape(names, profiles, codes);
      CoFromResult(names, 0, base, []);
      assert base + [] == base;
    }
  }

  // Properties of the output.

  lemma {:induction false} SumBound(xs: seq<real>, bound: real)
    requires forall k :: 0 <= k < |xs| ==> xs[k] <= bound
    ensures Sum(xs) <= bound * |xs| as real
    decreases |xs|
  {
    if xs != [] {
      SumBound(xs[1..], bound);
    }
  }

  lemma {:induction false} GetBound(r: seq<Entry>, name: string, bound: real)
    requires bound >= 0.0
    requires forall e :: e in r ==> e.confidence <= bound
    ensures Get(r, name, 0.0) <= bound
    decreases |r|
  {
    if r != [] && r[0].disease != name {
      GetBound(r[1..], name, bound);
    }
  }

  /** With every stored confidence at most `bound`, a combined confidence is at most 0.8 * bound. */
  lemma CombinedBound(base: seq<Entry>, name: string, bound: real)
    requires bound >= 0.0
    requires forall e :: e in base ==> e.confidence <= bound
    ensures CoinfectionConfidence(base, name) <= CoinfectionFactor * bound
  {
    var scores := IndividualScores(base, Split(name));
    forall k | 0 <= k < |scores| ensures scores[k] <= bound {
      GetBound(base, Split(name)[k], bound);
    }
    SumBound(scores, bound);
    MeanBound(Sum(scores), |scores| as real, bound);
  }

  /** A total of at most `n` times `bound`, scaled by 0.8 and averaged over `n`. */
  lemma MeanBound(total: real, n: real, bound: real)
    requires n > 0.0 && total <= bound * n
    ensures total * CoinfectionFactor / n <= CoinfectionFactor * bound
  {
    assert total / n <= bound * n / n;
    assert total * CoinfectionFactor / n == CoinfectionFactor * (total / n);
  }

  /** The co-infection entries are exactly the co-infection identifiers whose combined
      confidence exceeds the threshold, each with that confidence. */
  lemma {:induction false} CoEntriesShape(names: seq<string>, base: seq<Entry>)
    ensures forall e :: e in CoEntries(names, base) ==>
              e.disease in names && '_' in e.disease
              && e.confidence == CoinfectionConfidence(base, e.disease) && e.confidence > CoinfectionThreshold
    ensures forall n :: n in names && '_' in n && CoinfectionConfidence(base, n) > CoinfectionThreshold ==>
              Entry(n, CoinfectionConfidence(base, n)) in CoEntries(names, base)
    decreases |names|
  {
    if names != [] {
      CoEntriesShape(names[1..], base);
      assert names == [names[0]] + names[1..];
    }
  }

  lemma {:induction false} NoCoEntries(names: seq<string>, base: seq<Entry>)
    requires forall n :: n in names && '_' in n ==> CoinfectionConfidence(base, n) <= CoinfectionThreshold
    ensures CoEntries(names, base) == []
    decreases |names|
  {
    if names != [] {
      assert forall n :: n in names[1..] ==> n in names;
      NoCoEntries(names[1..], base);
    }
  }

  /** What `diagnose` guarantees on a registry whose base profiles all have symptoms:
      it succeeds; each base disease is reported with its clamped score in [20, 100];
      a co-infection is reported exactly when its combined confidence exceeds 40, and then
      with that confidence, which is at most 80; nothing else is reported; the list is a
      permutation of the results, in non-increasing order, and entries with equal
      confidence keep the registry order (base diseases, then co-infections). */
  lemma DiagnoseGuarantees(symptomMap: map<string, Code>, names: seq<string>,
                           profiles: map<string, DiseaseProfile>, symptoms: seq<string>)
    requires Distinct(names)
    requires forall n :: n in names ==> n in profiles
    requires Scorable(names, profiles)
    ensures DiagnoseSpec(symptomMap, names, profiles, symptoms).Success?
    ensures
      var codes := Normalize(symptomMap, symptoms);
      var base := BaseEntries(names, profiles, codes);
      var out := DiagnoseSpec(symptomMap, names, profiles, symptoms).value;
      && (forall n :: n in names && '_' !in n ==> Entry(n, BaseConfidence(codes, profiles[n])) in out)
      && (forall e :: e in out ==> e.disease in names && 20.0 <= e.confidence <= 100.0)
      && (forall e :: e in out && '_' !in e.disease ==> e.confidence == BaseConfidence(codes, profiles[e.disease]))
      && (forall n :: n in names && '_' in n ==>
            ((exists v :: Entry(n, v) in out) <==> CoinfectionConfidence(base, n) > CoinfectionThreshold))
      && (forall e :: e in out && '_' in e.disease ==>
            e.confidence == CoinfectionConfidence(base, e.disease)
            && CoinfectionThreshold < e.confidence <= CoinfectionFactor * 100.0)
      && multiset(out) == multiset(base + CoEntries(names, base))
      && NonIncreasing(out)
      && (forall v :: Filter(ConfidenceIs(v), out) == Filter(ConfidenceIs(v), base + CoEntries(names, base)))
  {
    var codes := Normalize(symptomMap, symptoms);
    var base := BaseEntries(names, profiles, codes);
    var co := CoEntries(names, base);
    DiagnoseOutcome(symptomMap, names, profiles, symptoms);
    var out := DiagnoseSpec(symptomMap, names, profiles, symptoms).value;
    assert out == SortByConfidence(base + co);
    assert forall e :: e in out <==> e in base + co by {
      forall e ensures e in out <==> e in base + co {
        assert e in out <==> multiset(out)[e] > 0;
        assert e in base + co <==> multiset(base + co)[e] > 0;
      }
    }
    BaseEntriesShape(names, profiles, codes);
    CoEntriesShape(names, base);
    forall n | n in names && '_' in n
      ensures CoinfectionConfidence(base, n) <= CoinfectionFactor * 100.0
    {
      CombinedBound(base, n, 100.0);
    }
    forall v ensures Filter(ConfidenceIs(v), out) == Filter(ConfidenceIs(v), base + co) {
      SortStable(base + co, v);
    }
  }

  /** For two base names of the registry and their identifier `d1_d2`: the co-infection is
      reported exactly when the two base confidences averaged, times 0.8, exceed 40, and
      then with that value. */
  lemma DiagnosePair(symptomMap: map<string, Code>, names: seq<string>,
                     profiles: map<string, DiseaseProfile>, symptoms: seq<string>, d1: string, d2: string)
    requires Distinct(names)
    requires forall n :: n in names ==> n in profiles
    requires Scorable(names, profiles)
    requires d1 in names && d2 in names && '_' !in d1 && '_' !in d2
    requires CoinfectionName(d1, d2) in names
    ensures DiagnoseSpec(symptomMap, names, profiles, symptoms).Success?
    ensures
      var codes := Normalize(symptomMap, symptoms);
      var combined := (BaseConfidence(codes, profiles[d1]) + BaseConfidence(codes, profiles[d2])) * CoinfectionFactor / 2.0;
      var out := DiagnoseSpec(symptomMap, names, profiles, symptoms).value;
      && ((exists v :: Entry(CoinfectionName(d1, d2), v) in out) <==> combined > CoinfectionThreshold)
      && (forall v :: Entry(CoinfectionName(d1, d2), v) in out ==> v == combined)
  {
    var codes := Normalize(symptomMap, symptoms);
    var base := BaseEntries(names, profiles, codes);
    DiagnoseGuarantees(symptomMap, names, profiles, symptoms);
    GetBaseEntry(names, profiles, codes, d1);
    GetBaseEntry(names, profiles, codes, d2);
    PairConfidence(base, d1, d2);
    SplitCoinfectionName(d1, d2);
  }

  /** With no symptom at all every base disease scores the floor. */
  lemma FloorEntries(names: seq<string>, profiles: map<string, DiseaseProfile>)
    requires forall n :: n in names ==> n in profiles
    requires Scorable(names, profiles)
    ensures forall e :: e in BaseEntries(names, profiles, []) ==> e.confidence == ScoreFloor
  {
    BaseEntriesShape(names, profiles, []);
    forall e | e in BaseEntries(names, profiles, []) ensures e.confidence == ScoreFloor {
      ScoreOfNothing(profiles[e.disease]);
    }
  }

  /** Base results all at the floor leave every co-infection at or below the threshold. */
  lemma FloorNoCoinfections(names: seq<string>, base: seq<Entry>)
    requires forall e :: e in base ==> e.confidence == ScoreFloor
    ensures CoEntries(names, base) == []
  {
    forall n | n in names && '_' in n ensures CoinfectionConfidence(base, n) <= CoinfectionThreshold {
      CombinedBound(base, n, ScoreFloor);
    }
    NoCoEntries(names, base);
  }

  /** Sorting entries of one confidence leaves them in place. */
  lemma FloorSorted(base: seq<Entry>)
    requires forall e :: e in base ==> e.confidence == ScoreFloor
    ensures SortByConfidence(base) == base
  {
    assert forall a :: 0 <= a < |base| ==> base[a] in base;
    SortSorted(base);
  }

  /** With no recognised symptom, every base disease is reported at exactly 20, in registry
      order, and no co-infection is reported. */
  lemma DiagnoseNothingRecognised(symptomMap: map<string, Code>, names: seq<string>,
                                  profiles: map<string, DiseaseProfile>, symptoms: seq<string>)
    requires Distinct(names)
    requires forall n :: n in names ==> n in profiles
    requires Scorable(names, profiles)
    requires Normalize(symptomMap, symptoms) == []
    ensures DiagnoseSpec(symptomMap, names, profiles, symptoms) == Success(BaseEntries(names, profiles, []))
    ensures forall e :: e in BaseEntries(names, profiles, []) ==> e.confidence == ScoreFloor
  {
    var base := BaseEntries(names, profiles, []);
    FloorEntries(names, profiles);
    FloorNoCoinfections(names, base);
    FloorSorted(base);
    DiagnoseOutcome(symptomMap, names, profiles, symptoms);
    assert base + [] == base;
  }

  /** When the base results are already in order and no co-infection passes the
      threshold, `diagnose` returns the base results unchanged. */
  lemma DiagnoseBaseOnly(symptomMap: map<string, Code>, names: seq<string>,
                         profiles: map<string, DiseaseProfile>, symptoms: seq<string>, base: seq<Entry>)
    requires Distinct(names)
    requires forall n :: n in names ==> n in profiles
    requires Scorable(names, profiles)
    requires BaseEntries(names, profiles, Normalize(symptomMap, symptoms)) == base
    requires CoEntries(names, base) == []
    requires NonIncreasing(base)
    ensures DiagnoseSpec(symptomMap, names, profiles, symptoms) == Success(base)
  {
    DiagnoseOutcome(symptomMap, names, profiles, symptoms);
    SortSorted(base);
    assert base + [] == base;
  }

  /** Each name with the floor confidence. */
  function AtFloor(names: seq<string>): (r: seq<Entry>)
    ensures |r| == |names|
    ensures forall k :: 0 <= k < |names| ==> r[k] == Entry(names[k], ScoreFloor)
  {
    if names == [] then []
    else
      assert forall k :: 1 <= k < |names| ==> names[1..][k - 1] == names[k];
      [Entry(names[0], ScoreFloor)] + AtFloor(names[1..])
  }

  /** On a registry of scorable base names followed by identifiers, an input with no
      recognised symptom yields exactly the base names at the floor, in registry order. */
  lemma DiagnoseNothingRecognisedOnRegistry(symptomMap: map<string, Code>, singles: seq<string>, ids: seq<string>,
                              profiles: map<string, DiseaseProfile>, symptoms: seq<string>)
    requires Distinct(singles + ids)
    requires forall n :: n in singles + ids ==> n in profiles
    requires forall k :: 0 <= k < |singles| ==> '_' !in singles[k] && HasSymptoms(profiles[singles[k]])
    requires forall n :: n in ids ==> '_' in n
    requires Normalize(symptomMap, symptoms) == []
    ensures DiagnoseSpec(symptomMap, singles + ids, profiles, symptoms) == Success(AtFloor(singles))
  {
    var names := singles + ids;
    BaseEntriesOfRegistry(singles, ids, profiles, []);
    DiagnoseNothingRecognised(symptomMap, names, profiles, symptoms);
    var r := BaseEntries(names, profiles, []);
    forall k | 0 <= k < |r| ensures r[k] == AtFloor(singles)[k] {
      assert r[k] in r;
    }
    assert r == AtFloor(singles);
  }
}
