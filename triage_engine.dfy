/**
 * The rule-based triage engine: three ordered tiers of case-insensitive
 * patterns, a keyword table naming the symptoms found, a classifier with
 * strict tier priority and a fixed confidence table, and a keyword chat
 * responder.
 */
module TriageEngine {
  import opened Wrappers
  import opened PyText
  import opened Seqs
  import opened Regex

  /** The urgency tiers, with their labels at the API boundary. */
  datatype Urgency = Urgence | Consultation | AutoSoin {

    function Label(): string {
      match this
      case Urgence => "urgence"
      case Consultation => "consultation"
      case AutoSoin => "auto-soin"
    }

    /** Emergency is the most severe tier, self-care the least. */
    function Severity(): nat {
      match this
      case Urgence => 2
      case Consultation => 1
      case AutoSoin => 0
    }
  }

  /** The outcome of one analysis. */
  datatype Assessment = Assessment(urgency: Urgency, confidence: real, advice: string, detectedSymptoms: seq<string>)

  // ---------------------------------------------------------------- tables

  /** `\bchest pain\b` */
  const ChestPain := Cat(WordBoundary, Cat(Lit("chest pain"), WordBoundary))
  /** `radiating to left arm` */
  const RadiatingToLeftArm := Lit("radiating to left arm")
  /** `difficulty breathing|shortness of breath` */
  const BreathingDistress := Alt(Lit("difficulty breathing"), Lit("shortness of breath"))
  /** `slurred speech|face droop|weakness on one side|one side of body` */
  const StrokeSigns :=
    Alt(Lit("slurred speech"), Alt(Lit("face droop"), Alt(Lit("weakness on one side"), Lit("one side of body"))))
  /** `sudden weakness` */
  const SuddenWeakness := Lit("sudden weakness")

  /** `\s*` between two literals. */
  function SpacedPair(a: string, b: string): Regex {
    Cat(Lit(a), Cat(Spaces, Lit(b)))
  }

  /** `\bfever\b.*(3\s*days|three\s*days|39)` */
  const PersistentFever :=
    Cat(WordBoundary, Cat(Lit("fever"), Cat(WordBoundary, Cat(AnyInLine,
      Alt(SpacedPair("3", "days"), Alt(SpacedPair("three", "days"), Lit("39")))))))
  /** `infected wound|wound.*(red|redness|swelling|pus)` */
  const WoundInfection :=
    Alt(Lit("infected wound"), Cat(Lit("wound"), Cat(AnyInLine,
      Alt(Lit("red"), Alt(Lit("redness"), Alt(Lit("swelling"), Lit("pus")))))))
  /** `common cold|runny nose` */
  const ColdSigns := Alt(Lit("common cold"), Lit("runny nose"))
  /** `mild headache|slight headache|feeling tired` */
  const MildDiscomfort := Alt(Lit("mild headache"), Alt(Lit("slight headache"), Lit("feeling tired")))

  const EmergencyPatterns: seq<Regex> := [ChestPain, RadiatingToLeftArm, BreathingDistress, StrokeSigns, SuddenWeakness]
  const ConsultationPatterns: seq<Regex> := [PersistentFever, WoundInfection]
  const SelfCarePatterns: seq<Regex> := [ColdSigns, MildDiscomfort]

  /** The pattern list of each tier. */
  function Patterns(u: Urgency): seq<Regex> {
    match u
    case Urgence => EmergencyPatterns
    case Consultation => ConsultationPatterns
    case AutoSoin => SelfCarePatterns
  }

  /** One row of the symptom keyword table: a pattern and the canonical name it reports. */
  datatype Keyword = Keyword(pattern: Regex, name: string)

  const SymptomKeywords: seq<Keyword> := [
    Keyword(Lit("chest pain"), "chest pain"),
    Keyword(Lit("left arm"), "arm radiation"),
    Keyword(Alt(Lit("breath"), Lit("breathing")), "breathing difficulty"),
    Keyword(Alt(Lit("slurred speech"), Lit("weakness")), "neurological deficit"),
    Keyword(Alt(Lit("fever"), Lit("39")), "fever"),
    Keyword(Lit("cough"), "cough"),
    Keyword(Alt(Lit("infected wound"), Lit("wound")), "wound infection"),
    Keyword(Alt(Lit("runny nose"), Lit("cold")), "common cold"),
    Keyword(Lit("headache"), "headache")
  ]

  /** Reported when no keyword matches. */
  const Unspecified := "unspecified"

  function Name(kw: Keyword): string { kw.name }

  /** The canonical names, in table order. */
  function SymptomNames(): seq<string> {
    MapSeq(SymptomKeywords, Name)
  }

  /** The keyword table names nine different symptoms, none of them "unspecified". */
  lemma SymptomNamesDistinct()
    ensures Distinct(SymptomNames())
    ensures Unspecified !in SymptomNames()
  {
    var names := SymptomNames();
    assert names == ["chest pain", "arm radiation", "breathing difficulty", "neurological deficit",
                     "fever", "cough", "wound infection", "common cold", "headache"];
  }

  // ------------------------------------------------------------- detection

  /** `re.search(p, text, flags=re.IGNORECASE)`, as a test on patterns. */
  function PatternFound(text: string): Regex -> bool {
    p => SearchIgnoreCase(p, text)
  }

  /** The same test on the pattern of a keyword row. */
  function KeywordFound(text: string): Keyword -> bool {
    (kw: Keyword) => SearchIgnoreCase(kw.pattern, text)
  }

  /** The patterns of `patterns` found in `text`, in list order. */
  function Matching(text: string, patterns: seq<Regex>): (found: seq<Regex>)
    ensures |found| <= |patterns|
  {
    Filter(patterns, PatternFound(text))
  }

  /**
   * What `_detect` returns: exactly the patterns found, each where it stands
   * in the list, and without repetition when the list has none.
   */
  lemma MatchingSpec(text: string, patterns: seq<Regex>)
    ensures forall p :: p in Matching(text, patterns) <==> p in patterns && SearchIgnoreCase(p, text)
    ensures IsSubsequence(Matching(text, patterns), patterns)
    ensures Distinct(patterns) ==> Distinct(Matching(text, patterns))
  {
    var keep := PatternFound(text);
    forall p ensures p in Matching(text, patterns) <==> p in patterns && SearchIgnoreCase(p, text) {
      FilterMembership(patterns, keep, p);
    }
    FilterIsSubsequence(patterns, keep);
    if Distinct(patterns) {
      SubsequenceOfDistinct(Matching(text, patterns), patterns);
    }
  }

  /** `_detect`: collect, in order, the patterns that `re.search` finds in `text`. */
  method Detect(text: string, patterns: seq<Regex>) returns (found: seq<Regex>)
    ensures found == Matching(text, patterns)
  {
    found := [];
    for i := 0 to |patterns|
      invariant found == Matching(text, patterns[..i])
    {
      FilterSnoc(patterns[..i], patterns[i], PatternFound(text));
      assert patterns[..i + 1] == patterns[..i] + [patterns[i]];
      if SearchIgnoreCase(patterns[i], text) {
        found := found + [patterns[i]];
      }
    }
    assert patterns[..|patterns|] == patterns;
  }

  /** The patterns of tier `u` found in `text`. */
  function Hits(text: string, u: Urgency): seq<Regex> {
    Matching(text, Patterns(u))
  }

  /** The keyword rows whose pattern is found in `text`, in table order. */
  function KeywordHits(text: string, keywords: seq<Keyword>): seq<Keyword> {
    Filter(keywords, KeywordFound(text))
  }

  /** The names of the keyword rows found in `text`, in table order. */
  function HitNames(text: string, keywords: seq<Keyword>): seq<string> {
    MapSeq(KeywordHits(text, keywords), Name)
  }

  /** No name is found exactly when no row's pattern is. */
  lemma HitNamesEmpty(text: string, keywords: seq<Keyword>)
    ensures HitNames(text, keywords) == [] <==>
              forall k | 0 <= k < |keywords| :: !SearchIgnoreCase(keywords[k].pattern, text)
  {
    var rows := KeywordHits(text, keywords);
    forall k | 0 <= k < |keywords| ensures keywords[k] in rows <==> SearchIgnoreCase(keywords[k].pattern, text) {
      FilterMembership(keywords, KeywordFound(text), keywords[k]);
    }
    if rows != [] {
      FilterMembership(keywords, KeywordFound(text), rows[0]);
      var k :| 0 <= k < |keywords| && keywords[k] == rows[0];
      assert SearchIgnoreCase(keywords[k].pattern, text);
    }
  }

  /** The names found keep the table order, and are distinct when the table's names are. */
  lemma HitNamesOrder(text: string, keywords: seq<Keyword>)
    ensures IsSubsequence(HitNames(text, keywords), MapSeq(keywords, Name))
    ensures Distinct(MapSeq(keywords, Name)) ==> Distinct(HitNames(text, keywords))
  {
    var rows := KeywordHits(text, keywords);
    FilterIsSubsequence(keywords, KeywordFound(text));
    SubsequenceMap(rows, keywords, Name);
    if Distinct(MapSeq(keywords, Name)) {
      SubsequenceOfDistinct(HitNames(text, keywords), MapSeq(keywords, Name));
    }
  }

  /** Every name found is the name of a row whose pattern is found. */
  lemma HitNamesFromTable(text: string, keywords: seq<Keyword>, m: nat)
    requires m < |HitNames(text, keywords)|
    ensures exists k | 0 <= k < |keywords| ::
              && keywords[k] == KeywordHits(text, keywords)[m]
              && HitNames(text, keywords)[m] == keywords[k].name
              && SearchIgnoreCase(keywords[k].pattern, text)
  {
    var rows := KeywordHits(text, keywords);
    FilterMembership(keywords, KeywordFound(text), rows[m]);
  }

  /** When the table's names are distinct, a row's name is found exactly when its pattern is. */
  lemma HitNamesMembership(text: string, keywords: seq<Keyword>, k: nat)
    requires Distinct(MapSeq(keywords, Name)) && k < |keywords|
    ensures keywords[k].name in HitNames(text, keywords) <==> SearchIgnoreCase(keywords[k].pattern, text)
  {
    var rows := KeywordHits(text, keywords);
    var found := HitNames(text, keywords);
    FilterMembership(keywords, KeywordFound(text), keywords[k]);
    if keywords[k].name in found {
      var m :| 0 <= m < |found| && found[m] == keywords[k].name;
      HitNamesFromTable(text, keywords, m);
      var k' :| 0 <= k' < |keywords| && keywords[k'] == rows[m] && found[m] == keywords[k'].name;
      assert MapSeq(keywords, Name)[k] == MapSeq(keywords, Name)[k'];
    }
    if keywords[k] in rows {
      var m :| 0 <= m < |rows| && rows[m] == keywords[k];
      assert found[m] == keywords[k].name;
    }
  }

  /** What `_extract_symptoms` reports: the names of the rows found, or "unspecified". */
  function Symptoms(text: string): (names: seq<string>)
    ensures names != []
  {
    var found := HitNames(text, SymptomKeywords);
    if found == [] then [Unspecified] else found
  }

  /**
   * The symptom list is `["unspecified"]` exactly when no keyword matches;
   * otherwise it names, in table order and without repetition, precisely the
   * rows whose pattern is found.
   */
  lemma SymptomsSpec(text: string)
    ensures Symptoms(text) == [Unspecified] <==>
              forall k | 0 <= k < |SymptomKeywords| :: !SearchIgnoreCase(SymptomKeywords[k].pattern, text)
    ensures Symptoms(text) != [Unspecified] ==>
              && IsSubsequence(Symptoms(text), SymptomNames())
              && Distinct(Symptoms(text))
              && forall k | 0 <= k < |SymptomKeywords| ::
                   SymptomKeywords[k].name in Symptoms(text) <==> SearchIgnoreCase(SymptomKeywords[k].pattern, text)
  {
    var found := HitNames(text, SymptomKeywords);
    SymptomNamesDistinct();
    HitNamesEmpty(text, SymptomKeywords);
    HitNamesOrder(text, SymptomKeywords);
    if found != [] {
      HitNamesFromTable(text, SymptomKeywords, 0);
      assert found[0] in SymptomNames();
      forall k | 0 <= k < |SymptomKeywords|
        ensures SymptomKeywords[k].name in found <==> SearchIgnoreCase(SymptomKeywords[k].pattern, text)
      {
        HitNamesMembership(text, SymptomKeywords, k);
      }
    }
  }

  /** `_extract_symptoms`: walk the keyword table, appending the name of each row found. */
  method ExtractSymptoms(text: string) returns (detected: seq<string>)
    ensures detected == Symptoms(text)
  {
    var keywords := SymptomKeywords;
    detected := [];
    for i := 0 to |keywords|
      invariant detected == HitNames(text, keywords[..i])
    {
      var kw := keywords[i];
      ghost var before := KeywordHits(text, keywords[..i]);
      assert keywords[..i + 1] == keywords[..i] + [kw];
      FilterSnoc(keywords[..i], kw, KeywordFound(text));
      if SearchIgnoreCase(kw.pattern, text) {
        MapSeqSnoc(before, kw, Name);
        detected := detected + [kw.name];
      }
    }
    assert keywords[..|keywords|] == keywords;
    if detected == [] {
      detected := [Unspecified];
    }
  }

  // ---------------------------------------------------------- classification

  const EmergencyAdvice :=
    "Emergency signs detected. Call your local emergency number or go to the nearest ER immediately. "
    + "Do not delay seeking care."
  const ConsultationAdvice :=
    "Your symptoms suggest you should see a healthcare professional soon. "
    + "Book a consultation within 24\U{2013}48 hours or sooner if symptoms worsen."
  const SelfCareAdvice :=
    "Symptoms appear mild. Rest, stay hydrated, and consider over-the-counter remedies. "
    + "Seek medical care if symptoms persist or worsen."

  /** The fixed advice of each tier. */
  function Advice(u: Urgency): (advice: string)
    ensures advice != []
  {
    match u
    case Urgence => EmergencyAdvice
    case Consultation => ConsultationAdvice
    case AutoSoin => SelfCareAdvice
  }

  /**
   * The classification of an already stripped text. The tier is the most
   * severe one with a pattern found (self-care when none is); the confidence
   * comes from a fixed table and lies in the unit interval.
   */
  function Classify(text: string): (a: Assessment)
    // the tier chosen has evidence, unless it is the self-care fallback
    ensures a.urgency == AutoSoin || Hits(text, a.urgency) != []
    // no tier with evidence is more severe than the one chosen
    ensures forall u: Urgency :: Hits(text, u) != [] ==> u.Severity() <= a.urgency.Severity()
    // the confidence table
    ensures a.urgency == Urgence ==>
              (a.confidence == 0.9 <==> |Hits(text, Urgence)| >= 2) &&
              (a.confidence == 0.85 <==> |Hits(text, Urgence)| == 1)
    ensures a.urgency == Consultation ==> a.confidence == 0.7
    ensures a.urgency == AutoSoin ==>
              (a.confidence == 0.7 <==> Hits(text, AutoSoin) != []) &&
              (a.confidence == 0.6 <==> Hits(text, AutoSoin) == [])
    ensures a.confidence in {0.6, 0.7, 0.85, 0.9} && 0.0 <= a.confidence <= 1.0
    ensures a.confidence >= 0.85 <==> a.urgency == Urgence
    ensures a.advice == Advice(a.urgency)
    ensures a.detectedSymptoms == Symptoms(text)
  {
    var emergencyHits := Hits(text, Urgence);
    var consultationHits := Hits(text, Consultation);
    var selfCareHits := Hits(text, AutoSoin);
    var detected := Symptoms(text);
    if emergencyHits != [] then
      Assessment(Urgence, if |emergencyHits| >= 2 then 0.9 else 0.85, EmergencyAdvice, detected)
    else if consultationHits != [] then
      Assessment(Consultation, 0.7, ConsultationAdvice, detected)
    else
      Assessment(AutoSoin, if selfCareHits != [] then 0.7 else 0.6, SelfCareAdvice, detected)
  }

  /**
   * `analyze`: blank symptoms are rejected; otherwise the stripped text is
   * classified. Age and allergies are accepted and not used.
   */
  function Analyze(symptoms: string, age: Option<int>, allergies: Option<string>): (r: Result<Assessment, string>)
    ensures r.Failure? <==> IsBlank(symptoms)
    ensures r.Failure? ==> r.error == "Symptoms cannot be empty"
    ensures r.Success? ==> r.value == Classify(Strip(symptoms))
  {
    if Strip(symptoms) == [] then Failure("Symptoms cannot be empty")
    else Success(Classify(Strip(symptoms)))
  }

  /**
   * Whatever the age and allergies, two symptom texts that strip to the same
   * text get the same answer.
   */
  lemma AnalyzeDependsOnlyOnStrippedText(
    s1: string, age1: Option<int>, allergies1: Option<string>,
    s2: string, age2: Option<int>, allergies2: Option<string>)
    requires Strip(s1) == Strip(s2)
    ensures Analyze(s1, age1, allergies1) == Analyze(s2, age2, allergies2)
  {
  }

  /**
   * Emergency evidence decides the tier whatever else is found, and
   * consultation evidence outranks self-care.
   */
  lemma TierPriority(text: string)
    ensures Hits(text, Urgence) != [] ==> Classify(text).urgency == Urgence
    ensures Hits(text, Urgence) == [] && Hits(text, Consultation) != [] ==> Classify(text).urgency == Consultation
    ensures Hits(text, Urgence) == [] && Hits(text, Consultation) == [] ==> Classify(text).urgency == AutoSoin
  {
    var a := Classify(text);
    assert Hits(text, Urgence) != [] ==> Urgence.Severity() <= a.urgency.Severity();
    assert Hits(text, Consultation) != [] ==> Consultation.Severity() <= a.urgency.Severity();
  }

  // ------------------------------------------------------------------- chat

  const EmergencyKeywords: seq<string> := ["emergency", "urgent", "911", "112"]
  const DoctorKeywords: seq<string> := ["doctor", "see a doctor", "consult"]

  const EmergencyReply := "If you suspect an emergency, call your local emergency number immediately."
  const FeverReply :=
    "A fever is a temporary rise in body temperature, often due to infection. "
    + "Seek care if it lasts more than 3 days, is \U{2265}39\U{b0}C, or if you have severe symptoms."
  const DoctorReply := "See a healthcare professional if symptoms are severe, persistent, or concerning."
  const DefaultReply :=
    "I'm here to help with general triage guidance. Describe your symptoms, duration, and severity, "
    + "and I'll suggest an urgency level."

  /** `any(keyword in msg for keyword in keywords)`. */
  predicate MentionsAny(msg: string, keywords: seq<string>) {
    exists k | 0 <= k < |keywords| :: Contains(msg, keywords[k])
  }

  /**
   * `chat`: blank messages are rejected; otherwise the stripped, lower-cased
   * message gets the first reply whose keywords it mentions, in the order
   * emergency, fever, doctor, with a default reply last.
   */
  function Chat(message: string): (r: Result<string, string>)
    ensures r.Failure? <==> IsBlank(message)
    ensures r.Failure? ==> r.error == "Message cannot be empty"
    ensures r.Success? ==> r.value != []
    ensures r.Success? ==>
      var msg := Fold(Strip(message));
      && (r.value == EmergencyReply <==> MentionsAny(msg, EmergencyKeywords))
      && (r.value == FeverReply <==> !MentionsAny(msg, EmergencyKeywords) && Contains(msg, "fever"))
      && (r.value == DoctorReply <==>
            !MentionsAny(msg, EmergencyKeywords) && !Contains(msg, "fever") && MentionsAny(msg, DoctorKeywords))
      && (r.value == DefaultReply <==>
            !MentionsAny(msg, EmergencyKeywords) && !Contains(msg, "fever") && !MentionsAny(msg, DoctorKeywords))
  {
    if Strip(message) == [] then
      Failure("Message cannot be empty")
    else
      var msg := Fold(Strip(message));
      if MentionsAny(msg, EmergencyKeywords) then Success(EmergencyReply)
      else if Contains(msg, "fever") then Success(FeverReply)
      else if MentionsAny(msg, DoctorKeywords) then Success(DoctorReply)
      else Success(DefaultReply)
  }

  /** The keyword "see a doctor" never decides a reply: "doctor" already covers it. */
  lemma SeeADoctorIsRedundant(msg: string)
    ensures MentionsAny(msg, DoctorKeywords) <==> Contains(msg, "doctor") || Contains(msg, "consult")
  {
    assert DoctorKeywords[0] == "doctor" && DoctorKeywords[1] == "see a doctor" && DoctorKeywords[2] == "consult";
    if Contains(msg, "see a doctor") {
      ContainsInfix(msg, "see a doctor", 6, 12);
      assert "see a doctor"[6..12] == "doctor";
    }
    if Contains(msg, "doctor") {
      assert Contains(msg, DoctorKeywords[0]);
    }
    if Contains(msg, "consult") {
      assert Contains(msg, DoctorKeywords[2]);
    }
  }
}
