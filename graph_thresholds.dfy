/**
 * The score threshold classifier of the graph service: a confidence is
 * scaled up by 15% per matched symptom, and the score is cut into three
 * bands at 0.85 and 0.60. Python floats are modelled as exact reals.
 */
module GraphThresholds {

  /** The three labels, ordered by urgency. */
  datatype Level = Critical | Moderate | Low {

    function Label(): string {
      match this
      case Critical => "CRITICAL"
      case Moderate => "MODERATE"
      case Low => "LOW"
    }

    function Rank(): nat {
      match this
      case Critical => 2
      case Moderate => 1
      case Low => 0
    }
  }

  const CriticalThreshold: real := 0.85
  const ModerateThreshold: real := 0.60
  const BoostPerSymptom: real := 0.15

  /** `confidence * (1 + 0.15 * matched_symptoms)`. */
  function Score(confidence: real, matched: int): real {
    confidence * (1.0 + BoostPerSymptom * matched as real)
  }

  /** `classify_urgency`: exactly one of the three labels, chosen by the band of the boosted score. */
  function ClassifyUrgency(confidence: real, matched: int): (l: Level)
    ensures l.Label() in {"CRITICAL", "MODERATE", "LOW"}
    ensures l == Critical <==> Score(confidence, matched) >= CriticalThreshold
    ensures l == Moderate <==> ModerateThreshold <= Score(confidence, matched) < CriticalThreshold
    ensures l == Low <==> Score(confidence, matched) < ModerateThreshold
  {
    var score := Score(confidence, matched);
    if score >= CriticalThreshold then Critical
    else if score >= ModerateThreshold then Moderate
    else Low
  }

  /** A higher score never gets a lower label. */
  lemma RankFollowsScore(c1: real, m1: int, c2: real, m2: int)
    requires Score(c1, m1) <= Score(c2, m2)
    ensures ClassifyUrgency(c1, m1).Rank() <= ClassifyUrgency(c2, m2).Rank()
  {
  }

  /** With a non-negative number of matches, raising the confidence never lowers the label. */
  lemma MonotoneInConfidence(c1: real, c2: real, matched: int)
    requires matched >= 0 && c1 <= c2
    ensures ClassifyUrgency(c1, matched).Rank() <= ClassifyUrgency(c2, matched).Rank()
  {
    var factor := 1.0 + BoostPerSymptom * matched as real;
    assert factor >= 1.0;
    assert Score(c2, matched) - Score(c1, matched) == (c2 - c1) * factor;
    RankFollowsScore(c1, matched, c2, matched);
  }

  /** With a non-negative confidence, more matched symptoms never lower the label. */
  lemma MonotoneInMatched(confidence: real, m1: int, m2: int)
    requires confidence >= 0.0 && m1 <= m2
    ensures ClassifyUrgency(confidence, m1).Rank() <= ClassifyUrgency(confidence, m2).Rank()
  {
    assert Score(confidence, m2) - Score(confidence, m1) == confidence * BoostPerSymptom * (m2 - m1) as real;
    RankFollowsScore(confidence, m1, confidence, m2);
  }

  /** With no matched symptom the confidence alone is compared with the thresholds. */
  lemma NoMatchesUsesConfidence(confidence: real)
    ensures ClassifyUrgency(confidence, 0) == Critical <==> confidence >= 0.85
    ensures ClassifyUrgency(confidence, 0) == Moderate <==> 0.60 <= confidence < 0.85
    ensures ClassifyUrgency(confidence, 0) == Low <==> confidence < 0.60
  {
    assert Score(confidence, 0) == confidence;
  }

  /** A confidence of zero or less is low, however many symptoms matched. */
  lemma NonPositiveConfidenceIsLow(confidence: real, matched: int)
    requires confidence <= 0.0 && matched >= 0
    ensures ClassifyUrgency(confidence, matched) == Low
  {
    var factor := 1.0 + BoostPerSymptom * matched as real;
    assert factor > 0.0;
    assert Score(confidence, matched) == confidence * factor;
  }

  /**
   * Monotonicity in the confidence needs a non-negative match count: at
   * -10 matches the factor is negative, and raising the confidence from -2
   * to 0 takes the label from critical down to low.
   */
  lemma NegativeMatchesInvertConfidence()
    ensures ClassifyUrgency(-2.0, -10) == Critical
    ensures ClassifyUrgency(0.0, -10) == Low
  {
    assert Score(-2.0, -10) == 1.0;
    assert Score(0.0, -10) == 0.0;
  }
}
