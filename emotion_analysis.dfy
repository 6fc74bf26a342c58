/**
 * `analyze_emotion`: bins the polarity of the text into one of three labels.
 * The polarity itself comes from TextBlob and is a parameter here.
 */
module EmotionAnalysis {

  datatype Emotion = Negative | Neutral | Positive

  /** The order Negative < Neutral < Positive. */
  function Rank(e: Emotion): nat
  {
    match e
    case Negative => 0
    case Neutral => 1
    case Positive => 2
  }

  /**
   * Returns the polarity unchanged and its label: Positive above 0.4,
   * Negative below -0.4, Neutral on the closed interval between (both
   * boundary values included).
   */
  function AnalyzeEmotion(polarity: real): (r: (real, Emotion))
    ensures r.0 == polarity
    ensures r.1 == Positive <==> polarity > 0.4
    ensures r.1 == Negative <==> polarity < -0.4
    ensures r.1 == Neutral <==> -0.4 <= polarity <= 0.4
  {
    var emotion :=
      if polarity > 0.4 then Positive
      else if polarity < -0.4 then Negative
      else Neutral;
    (polarity, emotion)
  }

  /** A higher polarity never gets a lower label. */
  lemma LabelMonotone(s1: real, s2: real)
    requires s1 <= s2
    ensures Rank(AnalyzeEmotion(s1).1) <= Rank(AnalyzeEmotion(s2).1)
  {
  }
}
