/** `analyze_code_changes` (backend/change_intelligence/__init__.py): runs the
    change detector, the breaking-change detector and the impact analyzer on
    the same two revisions and merges their fields into one record. */
module ChangeIntelligence {
  import opened Wrappers
  import opened Text
  import opened LineDiff
  import ChangeDetector
  import BreakingChange
  import ImpactAnalysis
  import SourcePatterns

  /** The fifteen keys of the combined dictionary. `modified_lines` and the
      breaking-change event list are not among them. */
  datatype CombinedReport = CombinedReport(
    changed: bool,
    filesChanged: seq<string>,
    reason: string,
    breakingChange: bool,
    breakingDetails: string,
    severity: BreakingChange.Severity,
    impact: seq<ImpactAnalysis.Impact>,
    affectedModules: seq<string>,
    outdatedDocs: seq<string>,
    affectedUsers: seq<ImpactAnalysis.User>,
    recommendations: seq<ImpactAnalysis.Advice>,
    changeSummary: string,
    addedLines: nat,
    removedLines: nat,
    file: string)

  /** The path used when the caller gives none. */
  const DefaultPath := "unknown"

  /** `analyze_code_changes`; `project_structure` defaults to `None`. */
  function AnalyzeCodeChanges(
    oldContent: string, newContent: string, filePath: string, projectStructure: Option<seq<string>>,
    differ: Differ, parser: BreakingChange.Parser): (r: CombinedReport)
    requires IsLineDiffer(differ)
    ensures r.file == filePath
    ensures r.changed <==> oldContent != newContent
    ensures r.filesChanged == (if r.changed then [filePath] else [])
    ensures r.breakingChange <==> r.severity != BreakingChange.NoSeverity
    ensures r.reason != ""
    ensures |r.impact| > 0 && |r.affectedUsers| > 0 && |r.recommendations| > 0
    ensures r.affectedModules == []
    ensures r.outdatedDocs
      == (if SourcePatternsCountsDiffer(oldContent, newContent) then ["API documentation for " + filePath] else [])
  {
    var change := ChangeDetector.DetectChanges(oldContent, newContent, filePath, differ);
    var breaking := BreakingChange.DetectBreakingChanges(oldContent, newContent, filePath, parser);
    var impact := ImpactAnalysis.AnalyzeImpact(oldContent, newContent, filePath, projectStructure, differ, parser);
    ImpactAnalysis.AffectedModulesAlwaysEmpty(oldContent, newContent, filePath, projectStructure, change, breaking.breakingChange);
    ImpactAnalysis.OutdatedDocsIff(oldContent, newContent, filePath, projectStructure, change, breaking.breakingChange);
    CombinedReport(
      change.changed, change.filesChanged, change.reason,
      breaking.breakingChange, breaking.details, breaking.severity,
      impact.impact, impact.affectedModules, impact.outdatedDocs, impact.affectedUsers, impact.recommendations,
      change.changeSummary, change.addedLines, change.removedLines,
      filePath)
  }

  /** The number of docstring blocks or of return annotations differs between
      the revisions. */
  predicate SourcePatternsCountsDiffer(oldContent: string, newContent: string) {
    || SourcePatterns.DocstringCount(oldContent) != SourcePatterns.DocstringCount(newContent)
    || SourcePatterns.ReturnHintCount(oldContent) != SourcePatterns.ReturnHintCount(newContent)
  }

  /** Every field is the matching field of the component that computes it. */
  lemma FieldsCopiedFromComponents(
    oldContent: string, newContent: string, filePath: string, projectStructure: Option<seq<string>>,
    differ: Differ, parser: BreakingChange.Parser)
    requires IsLineDiffer(differ)
    ensures var r := AnalyzeCodeChanges(oldContent, newContent, filePath, projectStructure, differ, parser);
      var change := ChangeDetector.DetectChanges(oldContent, newContent, filePath, differ);
      var breaking := BreakingChange.DetectBreakingChanges(oldContent, newContent, filePath, parser);
      var impact := ImpactAnalysis.AnalyzeImpact(oldContent, newContent, filePath, projectStructure, differ, parser);
      && (r.changed, r.filesChanged, r.reason, r.changeSummary, r.addedLines, r.removedLines)
        == (change.changed, change.filesChanged, change.reason, change.changeSummary, change.addedLines, change.removedLines)
      && (r.breakingChange, r.breakingDetails, r.severity) == (breaking.breakingChange, breaking.details, breaking.severity)
      && (r.impact, r.affectedModules, r.outdatedDocs, r.affectedUsers, r.recommendations)
        == (impact.impact, impact.affectedModules, impact.outdatedDocs, impact.affectedUsers, impact.recommendations)
      && r.breakingChange == impact.hasBreakingChanges
  {
  }

  /** Two identical revisions: nothing changed, nothing breaking, and every
      list holds only its placeholder. */
  lemma IdenticalRevisions(content: string, filePath: string, projectStructure: Option<seq<string>>,
    differ: Differ, parser: BreakingChange.Parser)
    requires IsLineDiffer(differ)
    ensures AnalyzeCodeChanges(content, content, filePath, projectStructure, differ, parser)
      == CombinedReport(
        false, [], ChangeDetector.NoChangeReason,
        false, BreakingChange.NoBreakingDetails, BreakingChange.NoSeverity,
        [ImpactAnalysis.NoSignificantImpact], [], [], [ImpactAnalysis.Developers], [ImpactAnalysis.ReviewAndTest],
        ChangeDetector.IdenticalSummary, 0, 0,
        filePath)
  {
    BreakingChange.IdenticalContentsNotBreaking(content, filePath, parser);
    ImpactAnalysis.IdenticalContentsDefaults(content, filePath, projectStructure, differ, parser);
  }
}
