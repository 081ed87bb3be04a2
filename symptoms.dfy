/** Symptom normalisation: free-text symptom names to the analyser's short codes
    (backend/disease_analyzer.py, the `symptom_map` table and the first line of `diagnose`). */
module Symptoms {

  import opened Seqs

  /** A canonical symptom code such as "HF". */
  type Code = string

  /** The closed vocabulary, exactly as authored. Two names map to "CF"
      (continuous_fever, confusion) and two to "RB" (rapid_breathing,
      relative_bradycardia); the table is kept as written. */
  const SymptomMap: map<string, Code> := map[
    "high_fever" := "HF",
    "biphasic_fever" := "BF",
    "intermittent_fever" := "IF",
    "continuous_fever" := "CF",
    "severe_headache" := "SH",
    "retro_orbital_pain" := "ROP",
    "muscle_joint_pain" := "MJP",
    "abdominal_pain" := "AP",
    "cough" := "CG",
    "shortness_breath" := "SOB",
    "sore_throat" := "ST",
    "rapid_breathing" := "RB",
    "loss_smell" := "LS",
    "loss_taste" := "LT",
    "maculopapular_rash" := "MPR",
    "petechiae" := "PT",
    "bleeding_gums" := "BG",
    "nose_bleeds" := "NB",
    "gi_bleeding" := "GIB",
    "persistent_vomiting" := "PV",
    "nausea" := "NA",
    "diarrhea" := "DI",
    "constipation" := "CN",
    "fatigue" := "FT",
    "chills" := "CH",
    "profuse_sweating" := "PS",
    "muscle_aches" := "MA",
    "weakness" := "WK",
    "confusion" := "CF",
    "restlessness" := "RT",
    "rose_spots" := "RS",
    "jaundice" := "JD",
    "splenomegaly" := "SP",
    "cyanosis" := "CY",
    "relative_bradycardia" := "RB"
  ]

  /** ASCII lower-casing of one character. */
  function LowerChar(c: char): char
  {
    if 'A' <= c <= 'Z' then (c as int + 32) as char else c
  }

  /** String lower-casing, restricted to ASCII letters. */
  function Lower(s: string): (r: string)
    ensures |r| == |s|
    ensures forall i :: 0 <= i < |r| ==> !('A' <= r[i] <= 'Z')
    ensures forall i :: 0 <= i < |s| && !('A' <= s[i] <= 'Z') ==> r[i] == s[i]
    ensures forall i :: 0 <= i < |s| && 'A' <= s[i] <= 'Z' ==> r[i] == (s[i] as int + 32) as char
  {
    seq(|s|, i requires 0 <= i < |s| => LowerChar(s[i]))
  }

  /** Lower-case each name, keep those the table knows, and replace each by its code. */
  function Normalize(table: map<string, Code>, symptoms: seq<string>): (codes: seq<Code>)
    ensures |codes| <= |symptoms|
    ensures forall c :: c in codes ==> c in table.Values
  {
    if symptoms == [] then []
    else
      var name := Lower(symptoms[0]);
      (if name in table then [table[name]] else []) + Normalize(table, symptoms[1..])
  }

  /** Normalisation works name by name: it distributes over concatenation ... */
  lemma {:induction false} NormalizeConcat(table: map<string, Code>, xs: seq<string>, ys: seq<string>)
    ensures Normalize(table, xs + ys) == Normalize(table, xs) + Normalize(table, ys)
    decreases |xs|
  {
    if xs == [] {
      assert xs + ys == ys;
    } else {
      assert (xs + ys)[0] == xs[0];
      assert (xs + ys)[1..] == xs[1..] + ys;
      NormalizeConcat(table, xs[1..], ys);
    }
  }

  /** ... and a single name yields its code or nothing. Together the two determine it. */
  lemma NormalizeOne(table: map<string, Code>, s: string)
    ensures Normalize(table, [s]) == if Lower(s) in table then [table[Lower(s)]] else []
  {
    assert [s][1..] == [];
  }

  /** Nothing is dropped exactly when every name is recognised. */
  lemma {:induction false} NormalizeKeepsAll(table: map<string, Code>, xs: seq<string>)
    ensures |Normalize(table, xs)| == |xs| <==> forall i :: 0 <= i < |xs| ==> Lower(xs[i]) in table
    decreases |xs|
  {
    if xs != [] {
      NormalizeKeepsAll(table, xs[1..]);
      assert forall i :: 1 <= i < |xs| ==> xs[1..][i - 1] == xs[i];
    }
  }

  /** Everything is dropped exactly when no name is recognised. */
  lemma {:induction false} NormalizeDropsAll(table: map<string, Code>, xs: seq<string>)
    ensures Normalize(table, xs) == [] <==> forall i :: 0 <= i < |xs| ==> Lower(xs[i]) !in table
    decreases |xs|
  {
    if xs != [] {
      NormalizeDropsAll(table, xs[1..]);
      assert forall i :: 1 <= i < |xs| ==> xs[1..][i - 1] == xs[i];
    }
  }

  /** Every name of the shipped table is at least five characters long. */
  lemma NamesAreLong()
    ensures forall k :: k in SymptomMap ==> |k| >= 5
  {
  }

  /** A name without ASCII capitals is its own lower-cased form. */
  lemma LowerFixed(s: string)
    requires forall i :: 0 <= i < |s| ==> !('A' <= s[i] <= 'Z')
    ensures Lower(s) == s
  {
  }

  /** The lower-case check, seven names at a time. */
  lemma NamesAreLowerCase0()
    ensures Lower("high_fever") == "high_fever"
    ensures Lower("biphasic_fever") == "biphasic_fever"
    ensures Lower("intermittent_fever") == "intermittent_fever"
    ensures Lower("continuous_fever") == "continuous_fever"
    ensures Lower("severe_headache") == "severe_headache"
    ensures Lower("retro_orbital_pain") == "retro_orbital_pain"
    ensures Lower("muscle_joint_pain") == "muscle_joint_pain"
  {
    LowerFixed("high_fever");
    LowerFixed("biphasic_fever");
    LowerFixed("intermittent_fever");
    LowerFixed("continuous_fever");
    LowerFixed("severe_headache");
    LowerFixed("retro_orbital_pain");
    LowerFixed("muscle_joint_pain");
  }

  lemma NamesAreLowerCase1()
    ensures Lower("abdominal_pain") == "abdominal_pain"
    ensures Lower("cough") == "cough"
    ensures Lower("shortness_breath") == "shortness_breath"
    ensures Lower("sore_throat") == "sore_throat"
    ensures Lower("rapid_breathing") == "rapid_breathing"
    ensures Lower("loss_smell") == "loss_smell"
    ensures Lower("loss_taste") == "loss_taste"
  {
    LowerFixed("abdominal_pain");
    LowerFixed("cough");
    LowerFixed("shortness_breath");
    LowerFixed("sore_throat");
    LowerFixed("rapid_breathing");
    LowerFixed("loss_smell");
    LowerFixed("loss_taste");
  }

  lemma NamesAreLowerCase2()
    ensures Lower("maculopapular_rash") == "maculopapular_rash"
    ensures Lower("petechiae") == "petechiae"
    ensures Lower("bleeding_gums") == "bleeding_gums"
    ensures Lower("nose_bleeds") == "nose_bleeds"
    ensures Lower("gi_bleeding") == "gi_bleeding"
    ensures Lower("persistent_vomiting") == "persistent_vomiting"
    ensures Lower("nausea") == "nausea"
  {
    LowerFixed("maculopapular_rash");
    LowerFixed("petechiae");
    LowerFixed("bleeding_gums");
    LowerFixed("nose_bleeds");
    LowerFixed("gi_bleeding");
    LowerFixed("persistent_vomiting");
    LowerFixed("nausea");
  }

  lemma NamesAreLowerCase3()
    ensures Lower("diarrhea") == "diarrhea"
    ensures Lower("constipation") == "constipation"
    ensures Lower("fatigue") == "fatigue"
    ensures Lower("chills") == "chills"
    ensures Lower("profuse_sweating") == "profuse_sweating"
    ensures Lower("muscle_aches") == "muscle_aches"
    ensures Lower("weakness") == "weakness"
  {
    LowerFixed("diarrhea");
    LowerFixed("constipation");
    LowerFixed("fatigue");
    LowerFixed("chills");
    LowerFixed("profuse_sweating");
    LowerFixed("muscle_aches");
    LowerFixed("weakness");
  }

  lemma NamesAreLowerCase4()
    ensures Lower("confusion") == "confusion"
    ensures Lower("restlessness") == "restlessness"
    ensures Lower("rose_spots") == "rose_spots"
    ensures Lower("jaundice") == "jaundice"
    ensures Lower("splenomegaly") == "splenomegaly"
    ensures Lower("cyanosis") == "cyanosis"
    ensures Lower("relative_bradycardia") == "relative_bradycardia"
  {
    LowerFixed("confusion");
    LowerFixed("restlessness");
    LowerFixed("rose_spots");
    LowerFixed("jaundice");
    LowerFixed("splenomegaly");
    LowerFixed("cyanosis");
    LowerFixed("relative_bradycardia");
  }

  /** Every name of the shipped table is written in lower case, so each of them is
      recognised as it stands. */
  lemma NamesAreLowerCase()
    ensures forall k :: k in SymptomMap ==> Lower(k) == k
  {
    NamesAreLowerCase0();
    NamesAreLowerCase1();
    NamesAreLowerCase2();
    NamesAreLowerCase3();
    NamesAreLowerCase4();
  }

  /** A name written with any mix of cases, letter for letter a table name, is recognised
      as that name. */
  lemma CaseVariantRecognised(s: string, k: string)
    requires k in SymptomMap && |s| == |k|
    requires forall i :: 0 <= i < |s| ==> s[i] == k[i] || ('a' <= k[i] <= 'z' && s[i] == (k[i] as int - 32) as char)
    ensures Normalize(SymptomMap, [s]) == [SymptomMap[k]]
  {
    NamesAreLowerCase();
    assert Lower(k) == k;
    forall i | 0 <= i < |s| ensures Lower(s)[i] == k[i] {
      assert Lower(k)[i] == k[i];
    }
    assert Lower(s) == k;
    NormalizeOne(SymptomMap, s);
  }

  /** Every code of the shipped table is at most three characters long. */
  lemma CodesAreShort()
    ensures forall c :: c in SymptomMap.Values ==> |c| <= 3
  {
  }

  /** Codes are not names: feeding normalised codes back in recognises none of them. */
  lemma {:induction false} NormalizeCodesDropped(xs: seq<string>)
    ensures Normalize(SymptomMap, Normalize(SymptomMap, xs)) == []
  {
    var codes := Normalize(SymptomMap, xs);
    NamesAreLong();
    CodesAreShort();
    forall i | 0 <= i < |codes| ensures Lower(codes[i]) !in SymptomMap {
      assert codes[i] in SymptomMap.Values;
      assert |Lower(codes[i])| <= 3;
    }
    NormalizeDropsAll(SymptomMap, codes);
  }

  /** Case is ignored, and two names that share a code yield that code twice. */
  lemma NormalizeExample()
    ensures Normalize(SymptomMap, ["Confusion", "continuous_fever"]) == ["CF", "CF"]
  {
    assert Lower("Confusion") == "confusion";
    assert Lower("continuous_fever") == "continuous_fever";
  }
}
