/** The agent's `ConfidenceAssessor` (backend/agent/confidence.py): a score
    from the length of the context alone, and a three-way level. Scores are
    exact reals here. */
module Confidence {

  datatype Level = LowConfidence | MediumConfidence | HighConfidence {
    function Label(): string {
      match this
      case LowConfidence => "low"
      case MediumConfidence => "medium"
      case HighConfidence => "high"
    }
  }

  /** The `ConfidenceResult` record. */
  datatype ConfidenceResult = ConfidenceResult(
    score: real,
    level: Level,
    reasoning: string,
    shouldHedge: bool,
    factors: map<string, real>)

  /** Context length, in characters, at which the score saturates. */
  const FullContext := 1500

  /** `min(len(context) / 1500, 1.0)`. */
  function Score(contextLength: nat): (s: real)
    ensures 0.0 <= s <= 1.0
    ensures s == 1.0 <==> contextLength >= FullContext
    ensures contextLength < FullContext ==> s * FullContext as real == contextLength as real
  {
    var ratio := contextLength as real / FullContext as real;
    if ratio < 1.0 then ratio else 1.0
  }

  /** "high" above 0.8, "medium" above 0.5, otherwise "low". */
  function LevelOf(score: real): Level {
    if score > 0.8 then HighConfidence else if score > 0.5 then MediumConfidence else LowConfidence
  }

  /** `assess`: only the context's length matters. */
  function Assess(query: string, context: string, answer: string, metadata: map<string, string>): (r: ConfidenceResult)
    ensures r.level == HighConfidence <==> |context| > 1200
    ensures r.level == MediumConfidence <==> 750 < |context| <= 1200
    ensures r.level == LowConfidence <==> |context| <= 750
    ensures r.shouldHedge <==> r.level != HighConfidence
    ensures 0.0 <= r.score <= 1.0
    ensures r.factors == map["context" := r.score]
  {
    var score := Score(|context|);
    var level := LevelOf(score);
    ConfidenceResult(score, level, "Based on context coverage", level != HighConfidence, map["context" := score])
  }

  /** Two contexts of the same length get the same assessment, whatever the
      query, answer and metadata. */
  lemma AssessDependsOnLengthOnly(
    q1: string, c1: string, a1: string, m1: map<string, string>,
    q2: string, c2: string, a2: string, m2: map<string, string>)
    requires |c1| == |c2|
    ensures Assess(q1, c1, a1, m1) == Assess(q2, c2, a2, m2)
  {
  }

  const HedgeOpening := "I might be mistaken, but "

  /** `get_hedge_phrase`, which receives the level as a string. */
  function HedgePhrase(level: string): (r: string)
    ensures r == "" <==> level == "high"
    ensures r != "" ==> r == HedgeOpening
  {
    if level != "high" then HedgeOpening else ""
  }

  /** The hedge phrase of an assessment is empty exactly when it need not
      hedge. */
  lemma HedgeAgreesWithAssessment(query: string, context: string, answer: string, metadata: map<string, string>)
    ensures var r := Assess(query, context, answer, metadata);
      HedgePhrase(r.level.Label()) == "" <==> !r.shouldHedge
  {
    var r := Assess(query, context, answer, metadata);
    assert r.level.Label() == "high" <==> r.level == HighConfidence;
  }
}
