/** Disease profiles, their merge into co-infection profiles, and disease identifiers
    (backend/disease_analyzer.py, `DiseaseProfile`, the authored profiles,
    `_merge_disease_profiles` and the pair enumeration of `_generate_coinfection_profiles`). */
module Profiles {

  import opened Seqs
  import opened Symptoms

  /** Hallmark symptoms, supportive symptoms, and per-symptom severity weights. */
  datatype DiseaseProfile = DiseaseProfile(
    primarySymptoms: seq<Code>,
    secondarySymptoms: seq<Code>,
    severityWeights: map<Code, real>)

  /** The co-infection profile of two diseases: the symptom lists concatenated and
      de-duplicated, and the weights merged with `p2` taking precedence on shared keys.
      The list order of Python's `list(set(...))` is unspecified; first occurrence is used. */
  function MergeDiseaseProfiles(p1: DiseaseProfile, p2: DiseaseProfile): DiseaseProfile
  {
    DiseaseProfile(
      AppendNew([], p1.primarySymptoms + p2.primarySymptoms),
      AppendNew([], p1.secondarySymptoms + p2.secondarySymptoms),
      p1.severityWeights + p2.severityWeights)
  }

  /** The merged lists hold every symptom of either profile once; the merged weights
      cover both key sets, a key of `p2` keeping p2's weight and any other key p1's. */
  lemma MergeDiseaseProfilesSpec(p1: DiseaseProfile, p2: DiseaseProfile)
    ensures var r := MergeDiseaseProfiles(p1, p2);
      && Distinct(r.primarySymptoms)
      && Elems(r.primarySymptoms) == Elems(p1.primarySymptoms) + Elems(p2.primarySymptoms)
      && Distinct(r.secondarySymptoms)
      && Elems(r.secondarySymptoms) == Elems(p1.secondarySymptoms) + Elems(p2.secondarySymptoms)
      && r.severityWeights.Keys == p1.severityWeights.Keys + p2.severityWeights.Keys
      && (forall c :: c in p2.severityWeights ==> r.severityWeights[c] == p2.severityWeights[c])
      && (forall c :: c in p1.severityWeights && c !in p2.severityWeights ==>
            r.severityWeights[c] == p1.severityWeights[c])
  {
    AppendNewSpec([], p1.primarySymptoms + p2.primarySymptoms);
    AppendNewSpec([], p1.secondarySymptoms + p2.secondarySymptoms);
    assert Elems(p1.primarySymptoms + p2.primarySymptoms) == Elems(p1.primarySymptoms) + Elems(p2.primarySymptoms);
    assert Elems(p1.secondarySymptoms + p2.secondarySymptoms) == Elems(p1.secondarySymptoms) + Elems(p2.secondarySymptoms);
  }

  /** The merge that the comment above the weight merge describes: the higher weight wins. */
  function MergeTakingHigher(w1: map<Code, real>, w2: map<Code, real>): (r: map<Code, real>)
    ensures r.Keys == w1.Keys + w2.Keys
  {
    map c | c in w1.Keys + w2.Keys ::
      if c in w1 && c in w2 then (if w1[c] >= w2[c] then w1[c] else w2[c])
      else if c in w2 then w2[c] else w1[c]
  }

  /** The two readings cover the same keys and disagree exactly on a shared key whose
      first weight is higher; in particular they agree whenever the key sets are disjoint. */
  lemma MergeReadings(p1: DiseaseProfile, p2: DiseaseProfile)
    ensures var w1, w2 := p1.severityWeights, p2.severityWeights;
      var right, higher := MergeDiseaseProfiles(p1, p2).severityWeights, MergeTakingHigher(w1, w2);
      && right.Keys == higher.Keys
      && (forall c :: c in right ==> (right[c] != higher[c] <==> c in w1 && c in w2 && w1[c] > w2[c]))
    ensures p1.severityWeights.Keys !! p2.severityWeights.Keys ==>
              MergeDiseaseProfiles(p1, p2).severityWeights == MergeTakingHigher(p1.severityWeights, p2.severityWeights)
  {
  }

  const Dengue := DiseaseProfile(
    ["HF", "BF", "ROP", "MPR", "PT"],
    ["MJP", "AP", "BG", "NB", "GIB", "PV", "RT"],
    map["PT" := 1.5, "GIB" := 1.8, "BG" := 1.3])

  const Malaria := DiseaseProfile(
    ["IF", "CH", "PS", "JD"],
    ["SH", "NA", "PV", "MA", "SP", "CF"],
    map["JD" := 1.4, "SP" := 1.3])

  const Typhoid := DiseaseProfile(
    ["CF", "RS", "RB"],
    ["AP", "CN", "DI", "WK", "PV"],
    map["CF" := 1.3, "RS" := 1.2])

  const Covid19 := DiseaseProfile(
    ["CG", "SOB", "LS", "LT"],
    ["ST", "HF", "CH", "MA", "NA", "DI", "CY", "CF"],
    map["SOB" := 1.6, "CY" := 1.5])

  /** The base diseases, in declaration order. */
  const SingleDiseases: seq<string> := ["dengue", "malaria", "typhoid", "covid19"]

  /** The authored profiles of the base diseases. */
  const BaseProfiles: map<string, DiseaseProfile> :=
    map["dengue" := Dengue, "malaria" := Malaria, "typhoid" := Typhoid, "covid19" := Covid19]

  /** The severity weights of any two base diseases share no symptom, so on the shipped
      catalogue the right-biased merge and the higher-value merge coincide. */
  lemma ShippedWeightsDisjoint()
    ensures forall i, j :: 0 <= i < j < |SingleDiseases| ==>
              BaseProfiles[SingleDiseases[i]].severityWeights.Keys !! BaseProfiles[SingleDiseases[j]].severityWeights.Keys
  {
  }

  // Disease identifiers

  /** Python's `str.split('_')`: the pieces between underscores, always at least one. */
  function Split(s: string): (parts: seq<string>)
    ensures |parts| >= 1
    ensures forall k :: 0 <= k < |parts| ==> '_' !in parts[k]
  {
    if s == [] then [[]]
    else
      var rest := Split(s[1..]);
      if s[0] == '_' then [[]] + rest
      else [[s[0]] + rest[0]] + rest[1..]
  }

  /** Python's `'_'.join(parts)`. */
  function Join(parts: seq<string>): string
    requires |parts| >= 1
  {
    if |parts| == 1 then parts[0] else parts[0] + "_" + Join(parts[1..])
  }

  lemma {:induction false} SplitPrefix(a: string, t: string)
    requires '_' !in a
    ensures Split(a) == [a]
    ensures Split(a + "_" + t) == [a] + Split(t)
    decreases |a|
  {
    if a == [] {
      assert a + "_" + t == ['_'] + t;
      assert (['_'] + t)[1..] == t;
    } else {
      SplitPrefix(a[1..], t);
      assert (a + "_" + t)[1..] == a[1..] + "_" + t;
      assert a == [a[0]] + a[1..];
    }
  }

  /** Splitting undoes joining pieces that hold no underscore. */
  lemma {:induction false} SplitJoin(parts: seq<string>)
    requires |parts| >= 1
    requires forall k :: 0 <= k < |parts| ==> '_' !in parts[k]
    ensures Split(Join(parts)) == parts
    decreases |parts|
  {
    if |parts| == 1 {
      SplitPrefix(parts[0], "");
    } else {
      SplitJoin(parts[1..]);
      SplitPrefix(parts[0], Join(parts[1..]));
      assert [parts[0]] + parts[1..] == parts;
    }
  }

  /** Joining undoes splitting: the identifier is recovered from its pieces. */
  lemma {:induction false} JoinSplit(s: string)
    ensures Join(Split(s)) == s
    decreases |s|
  {
    if s != [] {
      var rest := Split(s[1..]);
      JoinSplit(s[1..]);
      if s[0] == '_' {
        assert Join([[]] + rest) == [] + "_" + Join(rest);
      } else {
        var parts := [[s[0]] + rest[0]] + rest[1..];
        if |rest| == 1 {
          assert Join(parts) == [s[0]] + rest[0];
        } else {
          assert parts[1..] == rest[1..];
          assert Join(parts) == [s[0]] + rest[0] + "_" + Join(rest[1..]);
          assert Join(rest) == rest[0] + "_" + Join(rest[1..]);
        }
      }
      assert s == [s[0]] + s[1..];
    }
  }

  /** The identifier of the co-infection of two base diseases. */
  function CoinfectionName(d1: string, d2: string): string
  {
    d1 + "_" + d2
  }

  /** A co-infection identifier splits back into exactly its two base identifiers. */
  lemma SplitCoinfectionName(d1: string, d2: string)
    requires '_' !in d1 && '_' !in d2
    ensures Split(CoinfectionName(d1, d2)) == [d1, d2]
    ensures '_' in CoinfectionName(d1, d2)
  {
    SplitJoin([d1, d2]);
    assert Join([d1, d2]) == d1 + "_" + Join([d2]);
    assert CoinfectionName(d1, d2)[|d1|] == '_';
  }

  // The pair enumeration `for i in range(n): for j in range(i + 1, n)`

  /** `p` comes before `q` in the loop order. */
  predicate PairBefore(p: (nat, nat), q: (nat, nat))
  {
    p.0 < q.0 || (p.0 == q.0 && p.1 < q.1)
  }

  /** The pairs the inner loop visits for row `i` before reaching `j`. */
  function Row(i: nat, j: nat): seq<(nat, nat)>
    decreases j
  {
    if j <= i + 1 then [] else Row(i, j - 1) + [(i, j - 1)]
  }

  /** The pairs visited by the first `i` rows of the outer loop. */
  function Rows(n: nat, i: nat): seq<(nat, nat)>
  {
    if i == 0 then [] else Rows(n, i - 1) + Row(i - 1, n)
  }

  /** All index pairs i < j < n in loop order. */
  function Pairs(n: nat): seq<(nat, nat)>
  {
    Rows(n, n)
  }

  /** Row `i` up to `j` holds exactly the pairs (i, k) with i < k < j, in increasing order. */
  lemma {:induction false} RowSpec(i: nat, j: nat)
    ensures forall p :: p in Row(i, j) <==> p.0 == i && i < p.1 < j
    ensures forall a, b :: 0 <= a < b < |Row(i, j)| ==> PairBefore(Row(i, j)[a], Row(i, j)[b])
    decreases j
  {
    if j > i + 1 {
      RowSpec(i, j - 1);
    }
  }

  /** The first `i` rows hold exactly the pairs p.0 < p.1 < n with p.0 < i, in loop order. */
  lemma {:induction false} RowsSpec(n: nat, i: nat)
    ensures forall p :: p in Rows(n, i) <==> p.0 < i && p.0 < p.1 < n
    ensures forall a, b :: 0 <= a < b < |Rows(n, i)| ==> PairBefore(Rows(n, i)[a], Rows(n, i)[b])
  {
    if i > 0 {
      RowsSpec(n, i - 1);
      RowSpec(i - 1, n);
      var prev, row := Rows(n, i - 1), Row(i - 1, n);
      assert forall a, b :: 0 <= a < |prev| && 0 <= b < |row| ==> PairBefore(prev[a], row[b]) by {
        forall a, b | 0 <= a < |prev| && 0 <= b < |row| ensures PairBefore(prev[a], row[b]) {
          assert prev[a] in prev && row[b] in row;
        }
      }
      OrderedConcat(prev, row);
    }
  }

  /** Two runs in loop order, the first wholly before the second, concatenate in loop order. */
  lemma OrderedConcat(prev: seq<(nat, nat)>, row: seq<(nat, nat)>)
    requires forall a, b :: 0 <= a < b < |prev| ==> PairBefore(prev[a], prev[b])
    requires forall a, b :: 0 <= a < b < |row| ==> PairBefore(row[a], row[b])
    requires forall a, b :: 0 <= a < |prev| && 0 <= b < |row| ==> PairBefore(prev[a], row[b])
    ensures forall a, b :: 0 <= a < b < |prev + row| ==> PairBefore((prev + row)[a], (prev + row)[b])
  {
    var r := prev + row;
    forall a, b | 0 <= a < b < |r| ensures PairBefore(r[a], r[b]) {
      if b < |prev| {
        assert r[a] == prev[a] && r[b] == prev[b];
      } else if a < |prev| {
        assert r[a] == prev[a] && r[b] == row[b - |prev|];
      } else {
        assert r[a] == row[a - |prev|] && r[b] == row[b - |prev|];
      }
    }
  }

  /** The enumeration visits every pair i < j < n exactly once. */
  lemma PairsSpec(n: nat)
    ensures forall p :: p in Pairs(n) <==> p.0 < p.1 < n
    ensures Distinct(Pairs(n))
  {
    RowsSpec(n, n);
    var r := Pairs(n);
    assert forall a, b :: 0 <= a < b < |r| ==> PairBefore(r[a], r[b]);
  }

  /** The shipped enumeration. */
  lemma ShippedPairs()
    ensures Pairs(4) == [(0, 1), (0, 2), (0, 3), (1, 2), (1, 3), (2, 3)]
  {
    assert Rows(4, 1) == [(0, 1), (0, 2), (0, 3)] by {
      assert Row(0, 4) == [(0, 1), (0, 2), (0, 3)] by {
        assert Row(0, 3) == [(0, 1), (0, 2)] by {
          assert Row(0, 2) == [(0, 1)];
        }
      }
    }
    assert Rows(4, 2) == [(0, 1), (0, 2), (0, 3), (1, 2), (1, 3)] by {
      assert Row(1, 4) == [(1, 2), (1, 3)] by {
        assert Row(1, 3) == [(1, 2)];
      }
    }
    assert Rows(4, 4) == [(0, 1), (0, 2), (0, 3), (1, 2), (1, 3), (2, 3)] by {
      assert Row(2, 4) == [(2, 3)];
      assert Row(3, 4) == [];
    }
  }

  /** No base name contains the separator. */
  lemma SinglesUnseparated()
    ensures forall k :: 0 <= k < |SingleDiseases| ==> '_' !in SingleDiseases[k]
  {
  }

  /** The base identifiers are distinct, hold no underscore and name authored profiles. */
  lemma ShippedSingles()
    ensures Distinct(SingleDiseases)
    ensures forall k :: 0 <= k < |SingleDiseases| ==> '_' !in SingleDiseases[k]
    ensures forall k :: 0 <= k < |SingleDiseases| ==> SingleDiseases[k] in BaseProfiles
  {
  }

  /** The identifiers of a list of base-disease pairs. */
  function CoinfectionIds(prs: seq<(string, string)>): (ids: seq<string>)
    ensures |ids| == |prs|
  {
    if prs == [] then []
    else CoinfectionIds(prs[..|prs| - 1]) + [CoinfectionName(prs[|prs| - 1].0, prs[|prs| - 1].1)]
  }

  /** The k-th identifier names the k-th pair. */
  lemma {:induction false} CoinfectionIdAt(prs: seq<(string, string)>, k: nat)
    requires k < |prs|
    ensures CoinfectionIds(prs)[k] == CoinfectionName(prs[k].0, prs[k].1)
    decreases |prs|
  {
    if k < |prs| - 1 {
      CoinfectionIdAt(prs[..|prs| - 1], k);
    }
  }

  /** The base-disease pairs, in the order the generator visits them. */
  const CoinfectionPairs: seq<(string, string)> :=
    [("dengue", "malaria"), ("dengue", "typhoid"), ("dengue", "covid19"),
     ("malaria", "typhoid"), ("malaria", "covid19"), ("typhoid", "covid19")]

  /** Identifiers of pairs of underscore-free names split back into the pair. */
  lemma CoinfectionIdsSplit(prs: seq<(string, string)>)
    requires forall k :: 0 <= k < |prs| ==> '_' !in prs[k].0 && '_' !in prs[k].1
    ensures forall k :: 0 <= k < |prs| ==>
              Split(CoinfectionIds(prs)[k]) == [prs[k].0, prs[k].1] && '_' in CoinfectionIds(prs)[k]
  {
    forall k | 0 <= k < |prs|
      ensures Split(CoinfectionIds(prs)[k]) == [prs[k].0, prs[k].1] && '_' in CoinfectionIds(prs)[k]
    {
      CoinfectionIdAt(prs, k);
      SplitCoinfectionName(prs[k].0, prs[k].1);
    }
  }

  /** Distinct pairs of underscore-free names have distinct identifiers. */
  lemma CoinfectionIdsDistinct(prs: seq<(string, string)>)
    requires forall k :: 0 <= k < |prs| ==> '_' !in prs[k].0 && '_' !in prs[k].1
    requires Distinct(prs)
    ensures Distinct(CoinfectionIds(prs))
  {
    CoinfectionIdsSplit(prs);
    var ids := CoinfectionIds(prs);
    forall a, b | 0 <= a < b < |ids| ensures ids[a] != ids[b] {
      assert Split(ids[a]) != Split(ids[b]);
    }
  }

  /** The shipped pairs are the index pairs of the enumeration applied to the base list. */
  lemma ShippedCoinfectionPairs()
    ensures Pairs(|SingleDiseases|) == [(0, 1), (0, 2), (0, 3), (1, 2), (1, 3), (2, 3)]
    ensures |CoinfectionPairs| == |Pairs(|SingleDiseases|)|
    ensures forall k :: 0 <= k < |CoinfectionPairs| ==>
              CoinfectionPairs[k] == (SingleDiseases[Pairs(4)[k].0], SingleDiseases[Pairs(4)[k].1])
  {
    ShippedPairs();
  }

  /** The pairs the generator's two loops have visited when they reach row i, column j:
      every earlier row i' with its partners j' > i', then row i up to column j - 1. */
  function PairsBefore(singles: seq<string>, i: nat, j: nat): seq<(string, string)>
    requires i <= |singles| && i < j && (j <= |singles| || j == i + 1)
    decreases i, j
  {
    if j > i + 1 then PairsBefore(singles, i, j - 1) + [(singles[i], singles[j - 1])]
    else if i == 0 then []
    else PairsBefore(singles, i - 1, |singles|)
  }

  /** Every visited pair is made of two entries of the list. */
  lemma {:induction false} PairsBeforeMembers(singles: seq<string>, i: nat, j: nat)
    requires i <= |singles| && i < j && (j <= |singles| || j == i + 1)
    decreases i, j
    ensures forall p :: p in PairsBefore(singles, i, j) ==> p.0 in singles && p.1 in singles
  {
    if j > i + 1 {
      PairsBeforeMembers(singles, i, j - 1);
    } else if i > 0 {
      PairsBeforeMembers(singles, i - 1, |singles|);
    }
  }

  /** The entry at index `k` of `singles`, or the empty name past its end. */
  function NameAt(singles: seq<string>, k: nat): string
  {
    if k < |singles| then singles[k] else ""
  }

  /** The index pairs `ps` applied to the list `singles`. */
  function NamePairs(singles: seq<string>, ps: seq<(nat, nat)>): (prs: seq<(string, string)>)
    ensures |prs| == |ps|
  {
    if ps == [] then []
    else NamePairs(singles, ps[..|ps| - 1]) + [(NameAt(singles, ps[|ps| - 1].0), NameAt(singles, ps[|ps| - 1].1))]
  }

  /** Applying index pairs to a list distributes over appending one pair. */
  lemma NamePairsSnoc(singles: seq<string>, ps: seq<(nat, nat)>, p: (nat, nat))
    ensures NamePairs(singles, ps + [p]) == NamePairs(singles, ps) + [(NameAt(singles, p.0), NameAt(singles, p.1))]
  {
    assert (ps + [p])[..|ps|] == ps;
  }

  /** The k-th applied pair names the k-th index pair. */
  lemma {:induction false} NamePairsAt(singles: seq<string>, ps: seq<(nat, nat)>, k: nat)
    requires k < |ps|
    ensures NamePairs(singles, ps)[k] == (NameAt(singles, ps[k].0), NameAt(singles, ps[k].1))
    decreases |ps|
  {
    if k < |ps| - 1 {
      NamePairsAt(singles, ps[..|ps| - 1], k);
    }
  }

  /** The index pairs the generator's two loops have visited when they reach row i,
      column j, following the same recursion as `PairsBefore`. */
  function IndexPairsBefore(n: nat, i: nat, j: nat): seq<(nat, nat)>
    requires i <= n && i < j && (j <= n || j == i + 1)
    decreases i, j
  {
    if j > i + 1 then IndexPairsBefore(n, i, j - 1) + [(i, j - 1)]
    else if i == 0 then []
    else IndexPairsBefore(n, i - 1, n)
  }

  /** The names the loops visit are their index pairs applied to the list. */
  lemma {:induction false} PairsBeforeNamed(singles: seq<string>, i: nat, j: nat)
    requires i <= |singles| && i < j && (j <= |singles| || j == i + 1)
    ensures PairsBefore(singles, i, j) == NamePairs(singles, IndexPairsBefore(|singles|, i, j))
    decreases i, j
  {
    if j > i + 1 {
      PairsBeforeNamed(singles, i, j - 1);
      NamePairsSnoc(singles, IndexPairsBefore(|singles|, i, j - 1), (i, j - 1));
    } else if i > 0 {
      PairsBeforeNamed(singles, i - 1, |singles|);
    }
  }

  /** The visited index pairs are the first i rows followed by row i up to column j. */
  lemma {:induction false} IndexPairsBeforeIsRows(n: nat, i: nat, j: nat)
    requires i <= n && i < j && (j <= n || j == i + 1)
    ensures IndexPairsBefore(n, i, j) == Rows(n, i) + Row(i, j)
    decreases i, j
  {
    if j > i + 1 {
      IndexPairsBeforeIsRows(n, i, j - 1);
      assert Rows(n, i) + Row(i, j) == (Rows(n, i) + Row(i, j - 1)) + [(i, j - 1)];
    } else if i > 0 {
      IndexPairsBeforeIsRows(n, i - 1, n);
      RowsNext(n, i);
    }
  }

  /** Moving to the next row adds no pair. */
  lemma RowsNext(n: nat, i: nat)
    requires 0 < i
    ensures Rows(n, i) + Row(i, i + 1) == Rows(n, i - 1) + Row(i - 1, n)
  {
    assert Row(i, i + 1) == [];
  }

  /** The generator's two loops visit (singles[a], singles[b]) for exactly the index pairs
      a < b of the general enumeration `Pairs`, in its order, so each pair once. */
  lemma GeneratorVisitsPairs(singles: seq<string>)
    ensures var visited, ps := PairsBefore(singles, |singles|, |singles| + 1), Pairs(|singles|);
      && |visited| == |ps|
      && forall k :: 0 <= k < |ps| ==>
           ps[k].0 < ps[k].1 < |singles| && visited[k] == (singles[ps[k].0], singles[ps[k].1])
  {
    var n := |singles|;
    PairsBeforeNamed(singles, n, n + 1);
    IndexPairsBeforeIsRows(n, n, n + 1);
    assert Row(n, n + 1) == [];
    assert Rows(n, n) + Row(n, n + 1) == Pairs(n);
    PairsSpec(n);
    forall k | 0 <= k < |Pairs(n)|
      ensures Pairs(n)[k].0 < Pairs(n)[k].1 < n
      ensures PairsBefore(singles, n, n + 1)[k] == (singles[Pairs(n)[k].0], singles[Pairs(n)[k].1])
    {
      assert Pairs(n)[k] in Pairs(n);
      NamePairsAt(singles, Pairs(n), k);
    }
  }

  /** Once both loops are done they have visited exactly the shipped pair list. */
  lemma ShippedPairsBefore()
    ensures PairsBefore(SingleDiseases, |SingleDiseases|, |SingleDiseases| + 1) == CoinfectionPairs
  {
    var s := SingleDiseases;
    assert PairsBefore(s, 0, 1) == [];
    assert PairsBefore(s, 0, 4) == [(s[0], s[1]), (s[0], s[2]), (s[0], s[3])] by {
      assert PairsBefore(s, 0, 2) == [(s[0], s[1])];
      assert PairsBefore(s, 0, 3) == [(s[0], s[1]), (s[0], s[2])];
    }
    assert PairsBefore(s, 1, 4) == PairsBefore(s, 0, 4) + [(s[1], s[2]), (s[1], s[3])] by {
      assert PairsBefore(s, 1, 2) == PairsBefore(s, 0, 4);
      assert PairsBefore(s, 1, 3) == PairsBefore(s, 0, 4) + [(s[1], s[2])];
    }
    assert PairsBefore(s, 2, 4) == PairsBefore(s, 1, 4) + [(s[2], s[3])] by {
      assert PairsBefore(s, 2, 3) == PairsBefore(s, 1, 4);
    }
    assert PairsBefore(s, 4, 5) == PairsBefore(s, 2, 4) by {
      assert PairsBefore(s, 4, 5) == PairsBefore(s, 3, 4);
      assert PairsBefore(s, 3, 4) == PairsBefore(s, 2, 4);
    }
  }

  /** The shipped pairs are distinct pairs of base diseases. */
  lemma ShippedPairsOfBases()
    ensures forall k :: 0 <= k < |CoinfectionPairs| ==>
              CoinfectionPairs[k].0 in SingleDiseases && CoinfectionPairs[k].1 in SingleDiseases
    ensures forall k :: 0 <= k < |CoinfectionPairs| ==> '_' !in CoinfectionPairs[k].0 && '_' !in CoinfectionPairs[k].1
    ensures Distinct(CoinfectionPairs)
  {
    ShippedSingles();
  }

  /** The shipped identifiers are distinct, new, and split back into their pair. */
  lemma ShippedCoinfections()
    ensures forall k :: 0 <= k < |CoinfectionPairs| ==>
              CoinfectionPairs[k].0 in BaseProfiles && CoinfectionPairs[k].1 in BaseProfiles
    ensures Distinct(CoinfectionIds(CoinfectionPairs))
    ensures forall k :: 0 <= k < |CoinfectionPairs| ==>
              Split(CoinfectionIds(CoinfectionPairs)[k]) == [CoinfectionPairs[k].0, CoinfectionPairs[k].1]
              && '_' in CoinfectionIds(CoinfectionPairs)[k]
    ensures forall n :: n in CoinfectionIds(CoinfectionPairs) ==> n !in SingleDiseases
  {
    ShippedPairsOfBases();
    ShippedSingles();
    var prs := CoinfectionPairs;
    CoinfectionIdsSplit(prs);
    CoinfectionIdsDistinct(prs);
    var ids := CoinfectionIds(prs);
    assert forall m :: m in SingleDiseases ==> '_' !in m;
    forall n | n in ids ensures n !in SingleDiseases {
      var k :| 0 <= k < |ids| && ids[k] == n;
      assert '_' in ids[k];
    }
  }
}
