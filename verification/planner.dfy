/** The agent's rule-based `Planner` (backend/agent/planner.py).

    As written, the second test is `"summary" or ("summarize" in q)`, whose
    left operand is a non-empty string and therefore always true: every
    quality other than "limited" gets the summarize plan. `PlanAsWritten`
    models that; `Plan` is the keyword dispatch the later branches evidently
    intend, with the test read as `"summary" in q or "summarize" in q`. */
module Planner {
  import opened Text

  datatype Strategy = Uncertain | Summarize | ExplainChange | DetectBreaking | ImpactAnalysis | Direct {
    function Label(): string {
      match this
      case Uncertain => "uncertain"
      case Summarize => "summarize"
      case ExplainChange => "explain_change"
      case DetectBreaking => "detect_breaking"
      case ImpactAnalysis => "impact_analysis"
      case Direct => "direct"
    }
  }

  /** The `Plan` record. */
  datatype Plan = Plan(strategy: Strategy, toolsNeeded: seq<string>, reasoning: string, confidenceThreshold: real)

  /** `metadata.get("context_quality", "limited")`. */
  function Quality(metadata: map<string, string>): (q: string)
    ensures "context_quality" !in metadata ==> q == "limited"
    ensures "context_quality" in metadata ==> q == metadata["context_quality"]
  {
    if "context_quality" in metadata then metadata["context_quality"] else "limited"
  }

  const UncertainPlan := Plan(Uncertain, ["express_uncertainty"], "Context limited", 0.4)
  const SummarizePlan := Plan(Summarize, ["extract_key_points"], "Summary requested", 0.7)
  const ExplainChangePlan := Plan(ExplainChange,
    ["extract_changes", "analyze_code_changes", "detect_breaking_changes", "analyze_impact"],
    "Change explanation with intelligence", 0.75)
  const DetectBreakingPlan := Plan(DetectBreaking, ["detect_breaking_changes", "analyze_impact"],
    "Breaking change detection", 0.75)
  const ImpactPlan := Plan(ImpactAnalysis, ["analyze_impact"], "Impact analysis", 0.75)
  const DirectPlan := Plan(Direct, [], "Direct answer", 0.8)

  /** `plan` as written: the summarize test always succeeds. */
  function PlanAsWritten(query: string, context: string, metadata: map<string, string>): (p: Plan)
    ensures p.strategy == Uncertain <==> Quality(metadata) == "limited"
    ensures p.strategy == Uncertain || p.strategy == Summarize
  {
    if Quality(metadata) == "limited" then UncertainPlan
    else
      var summaryTest := true; // the non-empty literal "summary" is truthy
      if summaryTest || Contains(Lower(query), "summarize") then SummarizePlan
      else if Contains(Lower(query), "change") || Contains(Lower(query), "changed") || Contains(Lower(query), "difference")
      then ExplainChangePlan
      else if Contains(Lower(query), "breaking") || Contains(Lower(query), "break") then DetectBreakingPlan
      else if Contains(Lower(query), "impact") || Contains(Lower(query), "affect") || Contains(Lower(query), "downstream")
      then ImpactPlan
      else DirectPlan
  }

  predicate AsksForSummary(q: string) { Contains(q, "summary") || Contains(q, "summarize") }
  predicate AsksAboutChange(q: string) { Contains(q, "change") || Contains(q, "changed") || Contains(q, "difference") }
  predicate AsksAboutBreaking(q: string) { Contains(q, "breaking") || Contains(q, "break") }
  predicate AsksAboutImpact(q: string) { Contains(q, "impact") || Contains(q, "affect") || Contains(q, "downstream") }

  /** `plan` with the summarize test read as intended: the first keyword
      group found in the lowercased query picks the strategy. */
  function IntendedPlan(query: string, context: string, metadata: map<string, string>): (p: Plan)
    ensures Quality(metadata) == "limited" ==> p == UncertainPlan
    ensures Quality(metadata) != "limited" ==>
      var q := Lower(query);
      && (p.strategy == Summarize <==> AsksForSummary(q))
      && (p.strategy == ExplainChange <==> !AsksForSummary(q) && AsksAboutChange(q))
      && (p.strategy == DetectBreaking <==> !AsksForSummary(q) && !AsksAboutChange(q) && AsksAboutBreaking(q))
      && (p.strategy == ImpactAnalysis <==>
            !AsksForSummary(q) && !AsksAboutChange(q) && !AsksAboutBreaking(q) && AsksAboutImpact(q))
      && (p.strategy == Direct <==>
            !AsksForSummary(q) && !AsksAboutChange(q) && !AsksAboutBreaking(q) && !AsksAboutImpact(q))
  {
    var q := Lower(query);
    if Quality(metadata) == "limited" then UncertainPlan
    else if AsksForSummary(q) then SummarizePlan
    else if AsksAboutChange(q) then ExplainChangePlan
    else if AsksAboutBreaking(q) then DetectBreakingPlan
    else if AsksAboutImpact(q) then ImpactPlan
    else DirectPlan
  }

  /** As written, the query plays no part: any two queries get the same plan. */
  lemma AsWrittenIgnoresQuery(q1: string, q2: string, c1: string, c2: string, metadata: map<string, string>)
    ensures PlanAsWritten(q1, c1, metadata) == PlanAsWritten(q2, c2, metadata)
  {
  }

  /** A question about a change, in a good context, is summarized as written
      but explained by the intended dispatch. */
  lemma ChangeQuestionMisrouted()
    ensures PlanAsWritten("what changed", "", map["context_quality" := "good"]).strategy == Summarize
    ensures IntendedPlan("what changed", "", map["context_quality" := "good"]).strategy == ExplainChange
  {
    var q := Lower("what changed");
    assert q == "what changed";
    assert OccursAt(q, "change", 5);
    assert 's' !in q by {
      assert forall k | 0 <= k < |q| :: q[k] != 's';
    }
    MissingFirstChar(q, "summary");
    MissingFirstChar(q, "summarize");
  }

  /** A text lacking the first character of `sub` does not contain `sub`. */
  lemma MissingFirstChar(q: string, sub: string)
    requires |sub| > 0 && sub[0] !in q
    ensures !Contains(q, sub)
  {
    forall i | 0 <= i <= |q| - |sub|
      ensures !OccursAt(q, sub, i)
    {
      assert q[i] in q;
      assert q[i..i + |sub|][0] == q[i];
    }
  }

  /** The intended plan never depends on the context argument. */
  lemma PlanIgnoresContext(query: string, c1: string, c2: string, metadata: map<string, string>)
    ensures IntendedPlan(query, c1, metadata) == IntendedPlan(query, c2, metadata)
  {
  }
}
