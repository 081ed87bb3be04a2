/** The page script's logic (frontend/static/app.js, class `DiseaseUI`): the checkbox
    selection kept in a JavaScript `Set`, the label formatter, the empty-selection guard
    of `analyzeDisease`, the split of the results in `displayResults` and the severity
    bands. A JavaScript `Set` iterates in insertion order, so the selection is kept as a
    duplicate-free sequence. */
module Ui {

  import opened Seqs
  import opened Symptoms
  import opened Diagnosis
  import Profiles

  /** The checkbox groups shown on the page, in display order. */
  const SymptomCategories: seq<(string, seq<string>)> := [
    ("Fever Patterns",
      ["high_fever", "biphasic_fever", "intermittent_fever", "continuous_fever"]),
    ("Pain and Discomfort",
      ["severe_headache", "retro_orbital_pain", "muscle_joint_pain", "abdominal_pain", "muscle_aches"]),
    ("Respiratory Symptoms",
      ["cough", "shortness_breath", "sore_throat", "rapid_breathing"]),
    ("Sensory Changes",
      ["loss_smell", "loss_taste"]),
    ("Skin and Bleeding",
      ["maculopapular_rash", "petechiae", "bleeding_gums", "nose_bleeds", "gi_bleeding"]),
    ("Gastrointestinal",
      ["persistent_vomiting", "nausea", "diarrhea", "constipation"]),
    ("General Symptoms",
      ["fatigue", "chills", "profuse_sweating", "weakness", "confusion", "restlessness"]),
    ("Clinical Signs",
      ["rose_spots", "jaundice", "splenomegaly", "cyanosis", "relative_bradycardia"])
  ]

  /** Every checkbox name, category after category. */
  function CheckboxNames(categories: seq<(string, seq<string>)>): (names: seq<string>)
    ensures forall n :: n in names <==> exists k :: 0 <= k < |categories| && n in categories[k].1
  {
    if categories == [] then []
    else
      var rest := CheckboxNames(categories[1..]);
      assert forall k :: 1 <= k < |categories| ==> categories[1..][k - 1] == categories[k];
      categories[0].1 + rest
  }

  /** The checkboxes offer every name of the analyser's vocabulary and nothing else. */
  lemma CheckboxesMatchVocabulary()
    ensures Elems(CheckboxNames(SymptomCategories)) == SymptomMap.Keys
  {
    CheckboxesFlattened();
    CheckboxesInVocabulary();
    VocabularyInCheckboxes();
  }

  /** The checkbox names, category by category. */
  lemma CheckboxesFlattened()
    ensures CheckboxNames(SymptomCategories)
         == SymptomCategories[0].1 + SymptomCategories[1].1 + SymptomCategories[2].1
          + SymptomCategories[3].1 + SymptomCategories[4].1 + SymptomCategories[5].1
          + SymptomCategories[6].1 + SymptomCategories[7].1
  {
  }

  /** Every checkbox name is in the vocabulary. */
  lemma CheckboxesInVocabulary()
    ensures forall k, n :: 0 <= k < |SymptomCategories| && n in SymptomCategories[k].1 ==> n in SymptomMap
  {
  }

  /** Every name of the vocabulary has a checkbox. */
  lemma VocabularyInCheckboxes()
    ensures forall n :: n in SymptomMap ==>
              n in SymptomCategories[0].1 + SymptomCategories[1].1 + SymptomCategories[2].1
                 + SymptomCategories[3].1 + SymptomCategories[4].1 + SymptomCategories[5].1
                 + SymptomCategories[6].1 + SymptomCategories[7].1
  {
  }

  /** Whatever the page posts is a list of checkbox names, and normalisation keeps every
      one of them. */
  lemma SelectionFullyRecognised(selection: seq<string>)
    requires forall n :: n in selection ==> n in CheckboxNames(SymptomCategories)
    ensures |Normalize(SymptomMap, selection)| == |selection|
  {
    CheckboxesMatchVocabulary();
    NamesAreLowerCase();
    assert forall i :: 0 <= i < |selection| ==> selection[i] in Elems(CheckboxNames(SymptomCategories));
    NormalizeKeepsAll(SymptomMap, selection);
  }

  // The selection: `this.symptoms.add` / `this.symptoms.delete`

  /** `Set.prototype.delete`: `x` leaves, every other element keeps its place. */
  function Delete(s: seq<string>, x: string): (r: seq<string>)
    ensures forall y :: y in r <==> y in s && y != x
    ensures Distinct(s) ==> Distinct(r)
    ensures |r| <= |s|
  {
    if s == [] then []
    else
      assert Distinct(s) ==> Distinct(s[1..]) && s[0] !in s[1..];
      if s[0] == x then Delete(s[1..], x)
      else [s[0]] + Delete(s[1..], x)
  }

  /** Deleting an element that is not there changes nothing. */
  lemma {:induction false} DeleteAbsent(s: seq<string>, x: string)
    requires x !in s
    ensures Delete(s, x) == s
  {
    if s != [] {
      DeleteAbsent(s[1..], x);
      assert s == [s[0]] + s[1..];
    }
  }

  /** The selection after one checkbox change: the name leaves if it was selected and
      joins at the end otherwise. */
  function Toggled(s: seq<string>, x: string): (r: seq<string>)
    ensures x in r <==> x !in s
    ensures forall y :: y != x ==> (y in r <==> y in s)
    ensures Distinct(s) ==> Distinct(r)
  {
    if x in s then Delete(s, x) else s + [x]
  }

  /** Changing the same checkbox twice restores the selected set; when the name was not
      selected it restores the selection order too. */
  lemma ToggledTwice(s: seq<string>, x: string)
    ensures Elems(Toggled(Toggled(s, x), x)) == Elems(s)
    ensures x !in s ==> Toggled(Toggled(s, x), x) == s
  {
    if x !in s {
      assert Delete(s + [x], x) == Delete(s, x) by {
        DeleteAppend(s, x);
      }
      DeleteAbsent(s, x);
    }
  }

  lemma {:induction false} DeleteAppend(s: seq<string>, x: string)
    ensures Delete(s + [x], x) == Delete(s, x)
  {
    if s == [] {
      assert [] + [x] == [x];
      assert [x][1..] == [];
    } else {
      assert (s + [x])[1..] == s[1..] + [x];
      DeleteAppend(s[1..], x);
    }
  }

  // The label formatter: `symptom.replace(/_/g, ' ').replace(/\b\w/g, l => l.toUpperCase())`

  /** A character matched by the regular-expression class `\w`. */
  predicate IsWordChar(c: char)
  {
    'a' <= c <= 'z' || 'A' <= c <= 'Z' || '0' <= c <= '9' || c == '_'
  }

  /** `toUpperCase` on a character of `\w`: only the ASCII letters change. */
  function UpperChar(c: char): char
  {
    if 'a' <= c <= 'z' then (c as int - 32) as char else c
  }

  /** Every underscore becomes a space. */
  function ReplaceUnderscores(s: string): (r: string)
    ensures |r| == |s| && '_' !in r
  {
    seq(|s|, i requires 0 <= i < |s| => if s[i] == '_' then ' ' else s[i])
  }

  /** A word character at a word boundary: the first one, or one after a non-word character. */
  predicate StartsWord(t: string, i: nat)
    requires i < |t|
  {
    IsWordChar(t[i]) && (i == 0 || !IsWordChar(t[i - 1]))
  }

  /** Every word character that starts a word is upper-cased. */
  function CapitalizeWords(t: string): (r: string)
    ensures |r| == |t|
  {
    seq(|t|, i requires 0 <= i < |t| => if StartsWord(t, i) then UpperChar(t[i]) else t[i])
  }

  /** `formatSymptomLabel`. */
  function FormatSymptomLabel(symptom: string): (caption: string)
    ensures |caption| == |symptom|
    ensures '_' !in caption
  {
    CapitalizeWords(ReplaceUnderscores(symptom))
  }

  /** A name of lower-case ASCII letters and underscores, as the checkboxes use. */
  predicate SnakeCase(s: string)
  {
    forall i :: 0 <= i < |s| ==> 'a' <= s[i] <= 'z' || s[i] == '_'
  }

  /** One position of the label of a snake-case name. */
  lemma FormatSnakeCaseAt(s: string, i: nat)
    requires SnakeCase(s) && i < |s|
    ensures FormatSymptomLabel(s)[i]
         == if s[i] == '_' then ' '
            else if i == 0 || s[i - 1] == '_' then UpperChar(s[i])
            else s[i]
  {
    var t := ReplaceUnderscores(s);
    assert IsWordChar(t[i]) <==> s[i] != '_';
    if i > 0 {
      assert IsWordChar(t[i - 1]) <==> s[i - 1] != '_';
    }
  }

  /** On a snake-case name the label has a space exactly where the name has an underscore,
      an upper-case letter at the start and after each space, and the name's own
      letter everywhere else. */
  lemma FormatSnakeCase(s: string)
    requires SnakeCase(s)
    ensures var caption := FormatSymptomLabel(s);
      && (forall i :: 0 <= i < |s| ==> (caption[i] == ' ' <==> s[i] == '_'))
      && (forall i :: 0 <= i < |s| && s[i] != '_' && (i == 0 || caption[i - 1] == ' ') ==>
            'A' <= caption[i] <= 'Z' && caption[i] == UpperChar(s[i]))
      && (forall i :: 0 < i < |s| && s[i] != '_' && caption[i - 1] != ' ' ==> caption[i] == s[i])
  {
    var caption := FormatSymptomLabel(s);
    forall i | 0 <= i < |s|
      ensures caption[i] == if s[i] == '_' then ' '
                            else if i == 0 || s[i - 1] == '_' then UpperChar(s[i])
                            else s[i]
    {
      FormatSnakeCaseAt(s, i);
    }
  }

  /** The reverse direction: spaces back to underscores, then lower-case. */
  function LabelToName(caption: string): (name: string)
    ensures |name| == |caption|
  {
    Lower(seq(|caption|, i requires 0 <= i < |caption| => if caption[i] == ' ' then '_' else caption[i]))
  }

  /** A snake-case name is recovered from its caption. */
  lemma LabelRoundTrip(s: string)
    requires SnakeCase(s)
    ensures LabelToName(FormatSymptomLabel(s)) == s
  {
    FormatSnakeCase(s);
    var caption := FormatSymptomLabel(s);
    var name := LabelToName(caption);
    forall i | 0 <= i < |s| ensures name[i] == s[i] {
      if s[i] != '_' {
        assert caption[i] == s[i] || caption[i] == UpperChar(s[i]);
      }
    }
  }

  /** Every checkbox name is snake case, so the caption the page shows for it leads back
      to the name. */
  lemma CheckboxLabelsRoundTrip()
    ensures forall n :: n in CheckboxNames(SymptomCategories) ==> SnakeCase(n)
    ensures forall n :: n in CheckboxNames(SymptomCategories) ==> LabelToName(FormatSymptomLabel(n)) == n
  {
    CheckboxesMatchVocabulary();
    VocabularySnakeCase();
    forall n | n in CheckboxNames(SymptomCategories)
      ensures SnakeCase(n) && LabelToName(FormatSymptomLabel(n)) == n
    {
      assert n in Elems(CheckboxNames(SymptomCategories));
      LabelRoundTrip(n);
    }
  }

  /** Every name of the vocabulary is snake case. */
  lemma VocabularySnakeCase()
    ensures forall n :: n in SymptomMap ==> SnakeCase(n)
  {
    VocabularySnakeCase0();
    VocabularySnakeCase1();
    VocabularySnakeCase2();
    VocabularySnakeCase3();
    VocabularySnakeCase4();
  }

  lemma VocabularySnakeCase0()
    ensures SnakeCase("high_fever")
    ensures SnakeCase("biphasic_fever")
    ensures SnakeCase("intermittent_fever")
    ensures SnakeCase("continuous_fever")
    ensures SnakeCase("severe_headache")
    ensures SnakeCase("retro_orbital_pain")
    ensures SnakeCase("muscle_joint_pain")
  {
  }

  lemma VocabularySnakeCase1()
    ensures SnakeCase("abdominal_pain")
    ensures SnakeCase("cough")
    ensures SnakeCase("shortness_breath")
    ensures SnakeCase("sore_throat")
    ensures SnakeCase("rapid_breathing")
    ensures SnakeCase("loss_smell")
    ensures SnakeCase("loss_taste")
  {
  }

  lemma VocabularySnakeCase2()
    ensures SnakeCase("maculopapular_rash")
    ensures SnakeCase("petechiae")
    ensures SnakeCase("bleeding_gums")
    ensures SnakeCase("nose_bleeds")
    ensures SnakeCase("gi_bleeding")
    ensures SnakeCase("persistent_vomiting")
    ensures SnakeCase("nausea")
  {
  }

  lemma VocabularySnakeCase3()
    ensures SnakeCase("diarrhea")
    ensures SnakeCase("constipation")
    ensures SnakeCase("fatigue")
    ensures SnakeCase("chills")
    ensures SnakeCase("profuse_sweating")
    ensures SnakeCase("muscle_aches")
    ensures SnakeCase("weakness")
  {
  }

  lemma VocabularySnakeCase4()
    ensures SnakeCase("confusion")
    ensures SnakeCase("restlessness")
    ensures SnakeCase("rose_spots")
    ensures SnakeCase("jaundice")
    ensures SnakeCase("splenomegaly")
    ensures SnakeCase("cyanosis")
    ensures SnakeCase("relative_bradycardia")
  {
  }

  // The results split of `displayResults`

  /** A single disease: its name holds no underscore. */
  predicate IsSingleEntry(e: Entry)
  {
    '_' !in e.disease
  }

  /** A co-infection: its name holds an underscore. */
  predicate IsCoinfectionEntry(e: Entry)
  {
    '_' in e.disease
  }

  /** A co-infection worth showing: confidence above 40. */
  predicate IsSignificant(e: Entry)
  {
    e.confidence > 40.0
  }

  /** Every result goes to exactly one of the two lists, each keeps the results' order,
      and together they hold each result as often as the results do. */
  lemma PartitionSpec(results: seq<Entry>)
    ensures forall e :: e in results <==> e in Filter(IsSingleEntry, results) || e in Filter(IsCoinfectionEntry, results)
    ensures forall e :: !(e in Filter(IsSingleEntry, results) && e in Filter(IsCoinfectionEntry, results))
    ensures multiset(Filter(IsSingleEntry, results)) + multiset(Filter(IsCoinfectionEntry, results)) == multiset(results)
    ensures Subsequence(Filter(IsSingleEntry, results), results)
    ensures Subsequence(Filter(IsCoinfectionEntry, results), results)
  {
    forall e ensures multiset(Filter(IsSingleEntry, results))[e] + multiset(Filter(IsCoinfectionEntry, results))[e]
                     == multiset(results)[e]
    {
      FilterCount(IsSingleEntry, results, e);
      FilterCount(IsCoinfectionEntry, results, e);
    }
  }

  /** On what `diagnose` returns, the page's threshold filter removes nothing: every
      reported co-infection is already above 40. */
  lemma SignificantFilterRedundant(symptomMap: map<string, Code>, names: seq<string>,
                                   profiles: map<string, Profiles.DiseaseProfile>, symptoms: seq<string>)
    requires Distinct(names)
    requires forall n :: n in names ==> n in profiles
    requires Scorable(names, profiles)
    ensures DiagnoseSpec(symptomMap, names, profiles, symptoms).Success?
    ensures var co := Filter(IsCoinfectionEntry, DiagnoseSpec(symptomMap, names, profiles, symptoms).value);
      Filter(IsSignificant, co) == co
  {
    DiagnoseGuarantees(symptomMap, names, profiles, symptoms);
    var out := DiagnoseSpec(symptomMap, names, profiles, symptoms).value;
    FilterAll(IsSignificant, Filter(IsCoinfectionEntry, out));
  }

  // `getSeverityLevel`

  /** The band a co-infection confidence falls in, with its style class and advice. */
  datatype Severity = Severity(level: string, cssClass: string, message: string)

  const SevereBand := Severity("Severe", "severe", "Immediate medical attention recommended")
  const ModerateBand := Severity("Moderate", "moderate", "Medical consultation advised")
  const MildBand := Severity("Mild", "mild", "Monitor symptoms carefully")

  /** Severe from 70 on, Moderate from 50 up to 70, Mild below 50. */
  function GetSeverityLevel(confidence: real): (r: Severity)
    ensures r == SevereBand <==> confidence >= 70.0
    ensures r == ModerateBand <==> 50.0 <= confidence < 70.0
    ensures r == MildBand <==> confidence < 50.0
  {
    if confidence >= 70.0 then SevereBand
    else if confidence >= 50.0 then ModerateBand
    else MildBand
  }

  /** The bands in increasing order of urgency. */
  function Rank(s: Severity): nat
  {
    if s == SevereBand then 2 else if s == ModerateBand then 1 else 0
  }

  /** A higher confidence never gives a less urgent band. */
  lemma SeverityMonotone(a: real, b: real)
    requires a <= b
    ensures Rank(GetSeverityLevel(a)) <= Rank(GetSeverityLevel(b))
  {
  }

  /** What `analyzeDisease` does next: show a message, or post the selection. */
  datatype Action = ShowMessage(text: string) | PostSymptoms(symptoms: seq<string>)

  const EmptySelectionMessage := "Please select at least one symptom"

  class DiseaseUi {
    /** `this.symptoms`: the ticked checkboxes, in the order they were ticked. */
    var symptoms: seq<string>
    /** `this.symptomCategories`. */
    const symptomCategories: seq<(string, seq<string>)>

    /** A `Set` holds each element once. */
    ghost predicate Valid()
      reads this
    {
      Distinct(symptoms)
    }

    constructor ()
      ensures Valid()
      ensures symptoms == []
      ensures symptomCategories == SymptomCategories
    {
      symptoms := [];
      symptomCategories := SymptomCategories;
    }

    /** `updateSymptoms`: flip the membership of `symptom`, leaving every other name alone. */
    method UpdateSymptoms(symptom: string)
      requires Valid()
      modifies this
      ensures Valid()
      ensures symptoms == Toggled(old(symptoms), symptom)
    {
      if symptom in symptoms {
        symptoms := Delete(symptoms, symptom);
      } else {
        symptoms := symptoms + [symptom];
      }
    }

    /** The guard of `analyzeDisease`: with nothing selected only the message is shown
        and no request is made; otherwise the selection is posted, in insertion order. */
    method AnalyzeDisease() returns (action: Action)
      requires Valid()
      ensures symptoms == [] <==> action == ShowMessage(EmptySelectionMessage)
      ensures symptoms != [] ==> action == PostSymptoms(symptoms)
    {
      if |symptoms| == 0 {
        action := ShowMessage(EmptySelectionMessage);
        return;
      }
      action := PostSymptoms(symptoms);
    }

    /** The lists `displayResults` builds: the single diseases and the co-infections, each
        in the order received, and the co-infections above 40. */
    method DisplayResults(results: seq<Entry>)
      returns (singleDiseases: seq<Entry>, coInfections: seq<Entry>, significantCoInfections: seq<Entry>)
      ensures singleDiseases == Filter(IsSingleEntry, results)
      ensures coInfections == Filter(IsCoinfectionEntry, results)
      ensures significantCoInfections == Filter(IsSignificant, coInfections)
    {
      singleDiseases, coInfections := [], [];
      var i := 0;
      while i < |results|
        invariant 0 <= i <= |results|
        invariant singleDiseases == Filter(IsSingleEntry, results[..i])
        invariant coInfections == Filter(IsCoinfectionEntry, results[..i])
      {
        var e := results[i];
        FilterPrefixStep(IsSingleEntry, results, i);
        FilterPrefixStep(IsCoinfectionEntry, results, i);
        if '_' in e.disease {
          coInfections := coInfections + [e];
        } else {
          singleDiseases := singleDiseases + [e];
        }
        i := i + 1;
      }
      assert results[..i] == results;
      significantCoInfections := Filter(IsSignificant, coInfections);
    }
  }
}
