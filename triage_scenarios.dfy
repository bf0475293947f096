/**
 * Worked triage cases, checked against the model: each expected tier and
 * confidence follows from which patterns the text contains and which it
 * cannot contain. The texts are spelled in short pieces, one per phrase, so
 * that the verifier can take them apart piece by piece.
 */
module TriageScenarios {
  import opened Wrappers
  import opened PyText
  import opened Regex
  import opened TriageEngine

  // ---------------------------------------------------------------- helpers

  /** Two different members force a sequence to have at least two elements. */
  lemma TwoMembers<T>(s: seq<T>, x: T, y: T)
    requires x in s && y in s && x != y
    ensures |s| >= 2
  {
  }

  /** The middle piece of a text spelled as three pieces. */
  lemma Piece(a: string, b: string, c: string)
    ensures (a + b + c)[|a|..|a| + |b|] == b
  {
  }

  /** Already stripped and lower-case: the text is analyzed as it stands. */
  lemma Normalized(text: string)
    requires text != [] && !IsSpace(text[0]) && !IsSpace(text[|text| - 1])
    requires forall k | 0 <= k < |text| :: !('A' <= text[k] <= 'Z')
    ensures Strip(text) == text && Fold(text) == text
  {
    StripUnchanged(text);
    FoldLowerCase(text);
  }

  /** A listed pattern that the search finds is among the hits. */
  lemma Found(text: string, patterns: seq<Regex>, p: Regex)
    requires p in patterns && SearchIgnoreCase(p, text)
    ensures p in Matching(text, patterns)
  {
    MatchingSpec(text, patterns);
  }

  /** When every emergency pattern needs a character the text lacks, no emergency pattern is found. */
  lemma NoEmergencyHits(text: string, alphabet: set<char>)
    requires Within(Fold(text), alphabet)
    requires Excludes(ChestPain, alphabet) && Excludes(RadiatingToLeftArm, alphabet)
    requires Excludes(BreathingDistress, alphabet) && Excludes(StrokeSigns, alphabet)
    requires Excludes(SuddenWeakness, alphabet)
    ensures Hits(text, Urgence) == []
  {
    MatchingSpec(text, EmergencyPatterns);
    if Hits(text, Urgence) != [] {
      var p := Hits(text, Urgence)[0];
      assert p in EmergencyPatterns;
      ExcludedNeverMatches(p, alphabet, Fold(text));
    }
  }

  /** The same for the consultation patterns. */
  lemma NoConsultationHits(text: string, alphabet: set<char>)
    requires Within(Fold(text), alphabet)
    requires Excludes(PersistentFever, alphabet) && Excludes(WoundInfection, alphabet)
    ensures Hits(text, Consultation) == []
  {
    MatchingSpec(text, ConsultationPatterns);
    if Hits(text, Consultation) != [] {
      var p := Hits(text, Consultation)[0];
      assert p in ConsultationPatterns;
      ExcludedNeverMatches(p, alphabet, Fold(text));
    }
  }

  // ----------------------------------------------------------------- stroke

  const StrokeText := "sudden weakness" + " on one side of body, " + "slurred speech"

  lemma StrokeNormalized()
    ensures Fold(StrokeText) == StrokeText && Strip(StrokeText) == StrokeText
  {
    Normalized(StrokeText);
  }

  lemma SuddenWeaknessSpan()
    ensures Spans(SuddenWeakness, StrokeText, 0, 15)
  {
    Piece("", "sudden weakness", " on one side of body, " + "slurred speech");
  }

  lemma SlurredSpeechSpan()
    ensures Spans(StrokeSigns, StrokeText, 37, 51)
  {
    Piece("sudden weakness" + " on one side of body, ", "slurred speech", "");
    assert Spans(Lit("slurred speech"), StrokeText, 37, 51);
  }

  lemma SuddenWeaknessFound()
    ensures SearchIgnoreCase(SuddenWeakness, StrokeText)
  {
    StrokeNormalized();
    SuddenWeaknessSpan();
  }

  lemma SlurredSpeechFound()
    ensures SearchIgnoreCase(StrokeSigns, StrokeText)
  {
    StrokeNormalized();
    SlurredSpeechSpan();
  }

  lemma StrokeHits()
    ensures |Hits(StrokeText, Urgence)| >= 2
  {
    SuddenWeaknessFound();
    SlurredSpeechFound();
    Found(StrokeText, EmergencyPatterns, SuddenWeakness);
    Found(StrokeText, EmergencyPatterns, StrokeSigns);
    TwoMembers(Hits(StrokeText, Urgence), SuddenWeakness, StrokeSigns);
  }

  /** Sudden weakness plus a stroke sign: two emergency patterns, so emergency at 0.9. */
  lemma StrokeIsEmergency()
    ensures Analyze(StrokeText, Some(68), None) == Success(Classify(StrokeText))
    ensures Classify(StrokeText).urgency == Urgence && Classify(StrokeText).confidence == 0.9
  {
    StrokeNormalized();
    StrokeHits();
    TierPriority(StrokeText);
  }

  // ------------------------------------------------------------- chest pain

  const ChestText := "severe " + "chest pain" + " " + "radiating to left arm" + ", " + "difficulty breathing"

  lemma ChestNormalized()
    ensures Fold(ChestText) == ChestText && Strip(ChestText) == ChestText
  {
    Normalized(ChestText);
  }

  /** "chest pain" stands as a whole word at 7..17. */
  lemma ChestPainSpan()
    ensures Spans(ChestPain, ChestText, 7, 17)
  {
    Piece("severe ", "chest pain", " " + "radiating to left arm" + ", " + "difficulty breathing");
    assert ChestText[7..17] == "chest pain";
    assert Spans(Lit("chest pain"), ChestText, 7, 17);
    assert IsBoundary(ChestText, 7) && IsBoundary(ChestText, 17);
    assert Spans(Cat(Lit("chest pain"), WordBoundary), ChestText, 7, 17);
  }

  lemma RadiatingSpan()
    ensures Spans(RadiatingToLeftArm, ChestText, 18, 39)
  {
    Piece("severe " + "chest pain" + " ", "radiating to left arm", ", " + "difficulty breathing");
    assert ChestText[18..39] == "radiating to left arm";
  }

  lemma ChestPainFound()
    ensures SearchIgnoreCase(ChestPain, ChestText)
  {
    ChestNormalized();
    ChestPainSpan();
  }

  lemma RadiatingFound()
    ensures SearchIgnoreCase(RadiatingToLeftArm, ChestText)
  {
    ChestNormalized();
    RadiatingSpan();
  }

  lemma ChestHits()
    ensures |Hits(ChestText, Urgence)| >= 2
  {
    ChestPainFound();
    RadiatingFound();
    Found(ChestText, EmergencyPatterns, ChestPain);
    Found(ChestText, EmergencyPatterns, RadiatingToLeftArm);
    TwoMembers(Hits(ChestText, Urgence), ChestPain, RadiatingToLeftArm);
  }

  /** Chest pain radiating to the arm with breathing difficulty: emergency at 0.9. */
  lemma ChestPainIsEmergency()
    ensures Analyze(ChestText, Some(55), None) == Success(Classify(ChestText))
    ensures Classify(ChestText).urgency == Urgence && Classify(ChestText).confidence == 0.9
  {
    ChestNormalized();
    ChestHits();
    TierPriority(ChestText);
  }

  // ------------------------------------------------------------------ fever

  const FeverText := "fever" + " of " + "39" + " degrees for " + "3 days with " + "cough"

  const FeverAlphabet: set<char> :=
    {'f', 'e', 'v', 'r', ' ', 'o', '3', '9', 'd', 'g', 's', 'a', 'y', 'w', 'i', 't', 'h', 'c', 'u'}

  lemma FeverNormalized()
    ensures Fold(FeverText) == FeverText && Strip(FeverText) == FeverText
    ensures Within(Fold(FeverText), FeverAlphabet)
  {
    Normalized(FeverText);
  }

  lemma FeverLacksStrokeSigns()
    ensures Excludes(StrokeSigns, FeverAlphabet)
  {
    assert "slurred speech"[1] !in FeverAlphabet;
    assert "face droop"[9] !in FeverAlphabet;
    assert "weakness on one side"[3] !in FeverAlphabet;
    assert "one side of body"[12] !in FeverAlphabet;
  }

  lemma FeverLacksOtherEmergencySigns()
    ensures Excludes(ChestPain, FeverAlphabet) && Excludes(RadiatingToLeftArm, FeverAlphabet)
    ensures Excludes(BreathingDistress, FeverAlphabet) && Excludes(SuddenWeakness, FeverAlphabet)
  {
    assert "chest pain"[6] !in FeverAlphabet;
    assert "radiating to left arm"[7] !in FeverAlphabet;
    assert "difficulty breathing"[7] !in FeverAlphabet;
    assert "shortness of breath"[5] !in FeverAlphabet;
    assert "sudden weakness"[5] !in FeverAlphabet;
  }

  /** "fever" as a word, then "39" further on the same line. */
  lemma FeverOpening()
    ensures |FeverText| >= 11
    ensures FeverText[0..5] == "fever" && FeverText[5..9] == " of " && FeverText[9..11] == "39"
  {
    Piece("", "fever", " of " + "39" + " degrees for " + "3 days with " + "cough");
    Piece("fever", " of ", "39" + " degrees for " + "3 days with " + "cough");
    Piece("fever" + " of ", "39", " degrees for " + "3 days with " + "cough");
  }

  /** Any text opening with "fever of 39" matches the persistent-fever pattern on those 11 characters. */
  lemma FeverOf39Span(t: string)
    requires |t| >= 11 && t[0..5] == "fever" && t[5..9] == " of " && t[9..11] == "39"
    ensures Spans(PersistentFever, t, 0, 11)
  {
    var tail := Alt(SpacedPair("3", "days"), Alt(SpacedPair("three", "days"), Lit("39")));
    assert Spans(tail, t, 9, 11) by {
      assert Spans(Lit("39"), t, 9, 11);
    }
    assert Spans(Cat(AnyInLine, tail), t, 5, 11) by {
      forall k | 5 <= k < 9 ensures t[k] != '\n' {
        assert t[k] == " of "[k - 5];
      }
      assert Spans(AnyInLine, t, 5, 9);
    }
    assert Spans(Cat(WordBoundary, Cat(AnyInLine, tail)), t, 5, 11) by {
      assert t[4] == "fever"[4] && t[5] == " of "[0];
      assert IsBoundary(t, 5);
    }
    assert Spans(Cat(Lit("fever"), Cat(WordBoundary, Cat(AnyInLine, tail))), t, 0, 11) by {
      assert Spans(Lit("fever"), t, 0, 5);
    }
    assert IsBoundary(t, 0) by {
      assert t[0] == "fever"[0];
    }
  }

  lemma PersistentFeverSpan()
    ensures Spans(PersistentFever, FeverText, 0, 11)
  {
    FeverOpening();
    FeverOf39Span(FeverText);
  }

  lemma PersistentFeverFound()
    ensures SearchIgnoreCase(PersistentFever, FeverText)
  {
    FeverNormalized();
    PersistentFeverSpan();
  }

  lemma FeverNoEmergency()
    ensures Hits(FeverText, Urgence) == []
  {
    FeverNormalized();
    FeverLacksStrokeSigns();
    FeverLacksOtherEmergencySigns();
    NoEmergencyHits(FeverText, FeverAlphabet);
  }

  lemma FeverHits()
    ensures Hits(FeverText, Urgence) == [] && Hits(FeverText, Consultation) != []
  {
    FeverNoEmergency();
    PersistentFeverFound();
    Found(FeverText, ConsultationPatterns, PersistentFever);
  }

  /** A 39-degree fever and no emergency sign: consultation at 0.7. */
  lemma PersistentFeverIsConsultation()
    ensures Analyze(FeverText, Some(35), None) == Success(Classify(FeverText))
    ensures Classify(FeverText).urgency == Consultation && Classify(FeverText).confidence == 0.7
  {
    FeverNormalized();
    FeverHits();
    TierPriority(FeverText);
  }

  // --------------------------------------------------------------- headache

  const HeadacheText := "mild headache" + ", " + "feeling tired"

  const HeadacheAlphabet: set<char> := {'m', 'i', 'l', 'd', ' ', 'h', 'e', 'a', 'c', ',', 'f', 'n', 'g', 't', 'r'}

  lemma HeadacheNormalized()
    ensures Fold(HeadacheText) == HeadacheText && Strip(HeadacheText) == HeadacheText
    ensures Within(Fold(HeadacheText), HeadacheAlphabet)
  {
    Normalized(HeadacheText);
  }

  lemma HeadacheLacksStrokeSigns()
    ensures Excludes(StrokeSigns, HeadacheAlphabet)
  {
    assert "slurred speech"[0] !in HeadacheAlphabet;
    assert "face droop"[7] !in HeadacheAlphabet;
    assert "weakness on one side"[0] !in HeadacheAlphabet;
    assert "one side of body"[0] !in HeadacheAlphabet;
  }

  lemma HeadacheLacksOtherEmergencySigns()
    ensures Excludes(ChestPain, HeadacheAlphabet) && Excludes(RadiatingToLeftArm, HeadacheAlphabet)
    ensures Excludes(BreathingDistress, HeadacheAlphabet) && Excludes(SuddenWeakness, HeadacheAlphabet)
  {
    assert "chest pain"[3] !in HeadacheAlphabet;
    assert "radiating to left arm"[11] !in HeadacheAlphabet;
    assert "difficulty breathing"[6] !in HeadacheAlphabet;
    assert "shortness of breath"[0] !in HeadacheAlphabet;
    assert "sudden weakness"[0] !in HeadacheAlphabet;
  }

  lemma HeadacheLacksConsultationSigns()
    ensures Excludes(PersistentFever, HeadacheAlphabet) && Excludes(WoundInfection, HeadacheAlphabet)
  {
    assert "fever"[2] !in HeadacheAlphabet;
    assert "infected wound"[9] !in HeadacheAlphabet;
    assert "wound"[0] !in HeadacheAlphabet;
  }

  lemma MildHeadacheSpan()
    ensures Spans(MildDiscomfort, HeadacheText, 0, 13)
  {
    Piece("", "mild headache", ", " + "feeling tired");
    assert Spans(Lit("mild headache"), HeadacheText, 0, 13);
  }

  lemma MildHeadacheFound()
    ensures SearchIgnoreCase(MildDiscomfort, HeadacheText)
  {
    HeadacheNormalized();
    MildHeadacheSpan();
  }

  lemma HeadacheNoEscalation()
    ensures Hits(HeadacheText, Urgence) == [] && Hits(HeadacheText, Consultation) == []
  {
    HeadacheNormalized();
    HeadacheLacksStrokeSigns();
    HeadacheLacksOtherEmergencySigns();
    HeadacheLacksConsultationSigns();
    NoEmergencyHits(HeadacheText, HeadacheAlphabet);
    NoConsultationHits(HeadacheText, HeadacheAlphabet);
  }

  lemma HeadacheHits()
    ensures Hits(HeadacheText, Urgence) == [] && Hits(HeadacheText, Consultation) == []
    ensures Hits(HeadacheText, AutoSoin) != []
  {
    HeadacheNoEscalation();
    MildHeadacheFound();
    Found(HeadacheText, SelfCarePatterns, MildDiscomfort);
  }

  /** A mild headache and tiredness only: self-care at 0.7. */
  lemma MildHeadacheIsSelfCare()
    ensures Analyze(HeadacheText, Some(25), None) == Success(Classify(HeadacheText))
    ensures Classify(HeadacheText).urgency == AutoSoin && Classify(HeadacheText).confidence == 0.7
  {
    HeadacheNormalized();
    HeadacheHits();
    TierPriority(HeadacheText);
  }

  // -------------------------------------------------------------- infection

  const InfectionText := "infected wound" + " with redness and swelling"

  const InfectionAlphabet: set<char> :=
    {'i', 'n', 'f', 'e', 'c', 't', 'd', ' ', 'w', 'o', 'u', 'h', 'r', 's', 'l', 'g', 'a'}

  lemma InfectionNormalized()
    ensures Fold(InfectionText) == InfectionText && Strip(InfectionText) == InfectionText
    ensures Within(Fold(InfectionText), InfectionAlphabet)
  {
    Normalized(InfectionText);
  }

  lemma InfectionLacksStrokeSigns()
    ensures Excludes(StrokeSigns, InfectionAlphabet)
  {
    assert "slurred speech"[9] !in InfectionAlphabet;
    assert "face droop"[9] !in InfectionAlphabet;
    assert "weakness on one side"[3] !in InfectionAlphabet;
    assert "one side of body"[12] !in InfectionAlphabet;
  }

  lemma InfectionLacksOtherEmergencySigns()
    ensures Excludes(ChestPain, InfectionAlphabet) && Excludes(RadiatingToLeftArm, InfectionAlphabet)
    ensures Excludes(BreathingDistress, InfectionAlphabet) && Excludes(SuddenWeakness, InfectionAlphabet)
  {
    assert "chest pain"[6] !in InfectionAlphabet;
    assert "radiating to left arm"[20] !in InfectionAlphabet;
    assert "difficulty breathing"[9] !in InfectionAlphabet;
    assert "shortness of breath"[13] !in InfectionAlphabet;
    assert "sudden weakness"[10] !in InfectionAlphabet;
  }

  lemma InfectedWoundSpan()
    ensures Spans(WoundInfection, InfectionText, 0, 14)
  {
    Piece("", "infected wound", " with redness and swelling");
    assert Spans(Lit("infected wound"), InfectionText, 0, 14);
  }

  lemma InfectedWoundFound()
    ensures SearchIgnoreCase(WoundInfection, InfectionText)
  {
    InfectionNormalized();
    InfectedWoundSpan();
  }

  lemma InfectionHits()
    ensures Hits(InfectionText, Urgence) == [] && Hits(InfectionText, Consultation) != []
  {
    InfectionNormalized();
    InfectionLacksStrokeSigns();
    InfectionLacksOtherEmergencySigns();
    NoEmergencyHits(InfectionText, InfectionAlphabet);
    InfectedWoundFound();
    Found(InfectionText, ConsultationPatterns, WoundInfection);
  }

  /** An infected wound and no emergency sign: consultation at 0.7. */
  lemma InfectedWoundIsConsultation()
    ensures Analyze(InfectionText, Some(42), None) == Success(Classify(InfectionText))
    ensures Classify(InfectionText).urgency == Consultation && Classify(InfectionText).confidence == 0.7
  {
    InfectionNormalized();
    InfectionHits();
    TierPriority(InfectionText);
  }

  // ------------------------------------------------------------ common cold

  const ColdText := "mild " + "runny nose" + " and slight sore throat"

  const ColdAlphabet: set<char> :=
    {'m', 'i', 'l', 'd', ' ', 'r', 'u', 'n', 'y', 'o', 's', 'e', 'a', 'g', 'h', 't'}

  lemma ColdNormalized()
    ensures Fold(ColdText) == ColdText && Strip(ColdText) == ColdText
    ensures Within(Fold(ColdText), ColdAlphabet)
  {
    Normalized(ColdText);
  }

  lemma ColdLacksStrokeSigns()
    ensures Excludes(StrokeSigns, ColdAlphabet)
  {
    assert "slurred speech"[9] !in ColdAlphabet;
    assert "face droop"[0] !in ColdAlphabet;
    assert "weakness on one side"[0] !in ColdAlphabet;
    assert "one side of body"[10] !in ColdAlphabet;
  }

  lemma ColdLacksOtherEmergencySigns()
    ensures Excludes(ChestPain, ColdAlphabet) && Excludes(RadiatingToLeftArm, ColdAlphabet)
    ensures Excludes(BreathingDistress, ColdAlphabet) && Excludes(SuddenWeakness, ColdAlphabet)
  {
    assert "chest pain"[0] !in ColdAlphabet;
    assert "radiating to left arm"[15] !in ColdAlphabet;
    assert "difficulty breathing"[2] !in ColdAlphabet;
    assert "shortness of breath"[11] !in ColdAlphabet;
    assert "sudden weakness"[7] !in ColdAlphabet;
  }

  lemma ColdLacksConsultationSigns()
    ensures Excludes(PersistentFever, ColdAlphabet) && Excludes(WoundInfection, ColdAlphabet)
  {
    assert "fever"[0] !in ColdAlphabet;
    assert "infected wound"[2] !in ColdAlphabet;
    assert "wound"[0] !in ColdAlphabet;
  }

  lemma RunnyNoseSpan()
    ensures Spans(ColdSigns, ColdText, 5, 15)
  {
    Piece("mild ", "runny nose", " and slight sore throat");
    assert Spans(Lit("runny nose"), ColdText, 5, 15);
  }

  lemma RunnyNoseFound()
    ensures SearchIgnoreCase(ColdSigns, ColdText)
  {
    ColdNormalized();
    RunnyNoseSpan();
  }

  lemma ColdHits()
    ensures Hits(ColdText, Urgence) == [] && Hits(ColdText, Consultation) == []
    ensures Hits(ColdText, AutoSoin) != []
  {
    ColdNormalized();
    ColdLacksStrokeSigns();
    ColdLacksOtherEmergencySigns();
    ColdLacksConsultationSigns();
    NoEmergencyHits(ColdText, ColdAlphabet);
    NoConsultationHits(ColdText, ColdAlphabet);
    RunnyNoseFound();
    Found(ColdText, SelfCarePatterns, ColdSigns);
  }

  /** A runny nose and a sore throat: self-care at 0.7. */
  lemma CommonColdIsSelfCare()
    ensures Analyze(ColdText, Some(28), None) == Success(Classify(ColdText))
    ensures Classify(ColdText).urgency == AutoSoin && Classify(ColdText).confidence == 0.7
  {
    ColdNormalized();
    ColdHits();
    TierPriority(ColdText);
  }
}
