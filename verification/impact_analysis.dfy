/** `ImpactAnalyzer` (backend/change_intelligence/impact_analysis.py): a fixed
    sequence of independent rules that describe who and what a change may
    affect. Each rule appends to the impact, affected-module, outdated-doc,
    affected-user and recommendation lists; empty lists get placeholders.

    The messages are modelled as datatypes whose `Text()` is the exact
    string the analyzer emits, so that the rules can be reasoned about by
    constructor rather than by character. */
module ImpactAnalysis {
  import opened Wrappers
  import opened Text
  import opened SourcePatterns
  import opened LineDiff
  import ChangeDetector
  import BreakingChange

  // ---------------------------------------------------------------------------
  // Messages
  // ---------------------------------------------------------------------------

  datatype Impact =
    | BreakingDetected
    | RemovedExports(count: nat, shown: seq<string>)
    | AffectsDependents(count: nat)
    | SignatureChanges(count: nat)
    | DocstringsModified
    | TypeHintsModified
    | RemovedConstants(shown: seq<string>)
    | AddedConstants(shown: seq<string>)
    | MoreRaises
    | FewerRaises
    | ExceptionTypesChanged
    | CodeModified
    | NoSignificantImpact
  {
    function Text(): string {
      match this
      case BreakingDetected => "Breaking changes detected - may affect dependent code"
      case RemovedExports(n, shown) => "Removed " + NatToString(n) + " exported item(s): " + Join(shown, ", ")
      case AffectsDependents(n) => "Potentially affects " + NatToString(n) + " dependent file(s)"
      case SignatureChanges(n) => "Signature changes in " + NatToString(n) + " exported function(s)"
      case DocstringsModified => "Documentation/docstrings were modified"
      case TypeHintsModified => "Type hints were added, removed, or modified"
      case RemovedConstants(shown) => "Removed constant(s): " + Join(shown, ", ")
      case AddedConstants(shown) => "Added constant(s): " + Join(shown, ", ")
      case MoreRaises => "Additional exceptions may be raised"
      case FewerRaises => "Exception handling was modified"
      case ExceptionTypesChanged => "Exception types changed"
      case CodeModified => "Code modified - may require testing and review"
      case NoSignificantImpact => "No significant impact detected"
    }
  }

  datatype User =
    | ApiDevelopers | Importers | Callers | ApiConsumers | ConfigurationUsers | ExceptionHandlers
    | DevelopersAndQa | Developers
  {
    function Text(): string {
      match this
      case ApiDevelopers => "Developers using this module/API"
      case Importers => "Code that imports these items"
      case Callers => "Code calling these functions"
      case ApiConsumers => "API consumers"
      case ConfigurationUsers => "Users relying on default configuration"
      case ExceptionHandlers => "Code handling exceptions from this module"
      case DevelopersAndQa => "Developers and QA team"
      case Developers => "Developers"
    }
  }

  datatype Advice =
    | UpdateDependents | VersionBump | ReviewCallSites | ReviewErrorHandling | LargeChange
    | SignificantRemoval | ReviewAndTest
  {
    function Text(): string {
      match this
      case UpdateDependents => "Update dependent code before deploying"
      case VersionBump => "Consider version bump if this is a library"
      case ReviewCallSites => "Review call sites for compatibility"
      case ReviewErrorHandling => "Review error handling in dependent code"
      case LargeChange => "Large change - consider code review and testing"
      case SignificantRemoval => "Significant code removal - verify functionality is preserved"
      case ReviewAndTest => "Review changes and test"
    }
  }

  /** The dictionary `analyze_impact` returns. */
  datatype ImpactReport = ImpactReport(
    impact: seq<Impact>,
    affectedModules: seq<string>,
    outdatedDocs: seq<string>,
    affectedUsers: seq<User>,
    recommendations: seq<Advice>,
    file: string,
    hasBreakingChanges: bool)

  /** What the rules append, list by list. */
  datatype Findings = Findings(
    impacts: seq<Impact>,
    modules: seq<string>,
    docs: seq<string>,
    users: seq<User>,
    recs: seq<Advice>)
  {
    /** The findings of a later rule appended after these. */
    function Then(next: Findings): Findings {
      Findings(impacts + next.impacts, modules + next.modules, docs + next.docs,
        users + next.users, recs + next.recs)
    }
  }

  const Nothing := Findings([], [], [], [], [])

  // ---------------------------------------------------------------------------
  // Exports and their signatures
  // ---------------------------------------------------------------------------

  /** `_extract_exports`: public `def` and `class` names and upper-case
      constants, as a set kept in first-occurrence order. */
  function Exports(content: string): (r: seq<string>)
    ensures Distinct(r)
    ensures forall x :: x in r <==>
      x in PublicDefNames(content) || x in PublicClassNames(content) || x in ConstantNames(content)
  {
    Dedup(PublicDefNames(content) + PublicClassNames(content) + ConstantNames(content))
  }

  /** `_find_changed_exports`: shared exports defined as functions in both
      revisions whose parameter text differs. */
  function ChangedExports(oldContent: string, newContent: string, common: seq<string>): (r: seq<string>)
    ensures forall x :: x in r <==>
      && x in common
      && x in DefNames(oldContent) && x in DefNames(newContent)
      && SignatureString(oldContent, x) != SignatureString(newContent, x)
    ensures oldContent == newContent ==> r == []
  {
    var changed := (x: string) =>
      x in DefNames(oldContent) && x in DefNames(newContent)
      && SignatureString(oldContent, x) != SignatureString(newContent, x);
    if oldContent == newContent then
      FilterKeepsNone(common, changed);
      Filter(common, changed)
    else Filter(common, changed)
  }

  /** `_find_potential_dependents`: the body visits the project files but
      never adds one, so the result is always empty. */
  function FindPotentialDependents(sourceFile: string, removedExports: seq<string>, projectFiles: seq<string>)
    : (r: seq<string>)
    ensures |r| <= |projectFiles|
  {
    []
  }

  // ---------------------------------------------------------------------------
  // Content rules
  // ---------------------------------------------------------------------------

  /** `_detect_api_changes`: a changed number of `"""…"""` blocks or of
      `->` return annotations. */
  function ApiChanges(oldContent: string, newContent: string): (r: seq<Impact>)
    ensures DocstringsModified in r <==> DocstringCount(oldContent) != DocstringCount(newContent)
    ensures TypeHintsModified in r <==> ReturnHintCount(oldContent) != ReturnHintCount(newContent)
    ensures forall x | x in r :: x == DocstringsModified || x == TypeHintsModified
  {
    When(DocstringCount(oldContent) != DocstringCount(newContent), DocstringsModified)
    + When(ReturnHintCount(oldContent) != ReturnHintCount(newContent), TypeHintsModified)
  }

  /** `_detect_config_changes`: removed, then added, upper-case constants,
      at most three of each named. */
  function ConfigChanges(oldContent: string, newContent: string): (r: seq<Impact>)
    ensures |r| == 0 <==> Elems(ConstantNames(oldContent)) == Elems(ConstantNames(newContent))
    ensures forall x | x in r :: x.RemovedConstants? || x.AddedConstants?
    ensures forall x, c | x in r && x.RemovedConstants? && c in x.shown ::
      c in ConstantNames(oldContent) && c !in ConstantNames(newContent)
    ensures forall x, c | x in r && x.AddedConstants? && c in x.shown ::
      c in ConstantNames(newContent) && c !in ConstantNames(oldContent)
  {
    var oldConstants := Dedup(ConstantNames(oldContent));
    var newConstants := Dedup(ConstantNames(newContent));
    assert Elems(oldConstants) == Elems(ConstantNames(oldContent));
    assert Elems(newConstants) == Elems(ConstantNames(newContent));
    ConstantDifferences(oldConstants, newConstants)
  }

  /** The removed and the added names of two constant sets. */
  function ConstantDifferences(oldConstants: seq<string>, newConstants: seq<string>): (r: seq<Impact>)
    ensures |r| == 0 <==> Elems(oldConstants) == Elems(newConstants)
    ensures forall x | x in r :: x.RemovedConstants? || x.AddedConstants?
    ensures forall x, c | x in r && x.RemovedConstants? && c in x.shown :: c in oldConstants && c !in newConstants
    ensures forall x, c | x in r && x.AddedConstants? && c in x.shown :: c in newConstants && c !in oldConstants
  {
    var removed := Minus(oldConstants, newConstants);
    var added := Minus(newConstants, oldConstants);
    SameElementsIffNoDifference(oldConstants, newConstants);
    When(|removed| > 0, RemovedConstants(Take(removed, 3)))
    + When(|added| > 0, AddedConstants(Take(added, 3)))
  }

  /** Two lists have the same elements exactly when neither has an element
      the other lacks. */
  lemma SameElementsIffNoDifference(a: seq<string>, b: seq<string>)
    ensures Elems(a) == Elems(b) <==> |Minus(a, b)| == 0 && |Minus(b, a)| == 0
  {
    if |Minus(a, b)| > 0 {
      var x := Minus(a, b)[0];
      assert x in Elems(a) && x !in Elems(b);
    }
    if |Minus(b, a)| > 0 {
      var x := Minus(b, a)[0];
      assert x in Elems(b) && x !in Elems(a);
    }
    if |Minus(a, b)| == 0 && |Minus(b, a)| == 0 {
      forall x ensures x in Elems(a) <==> x in Elems(b) {
        assert (x in Minus(a, b)) == (x in a && x !in b);
        assert (x in Minus(b, a)) == (x in b && x !in a);
      }
    }
  }

  /** `_detect_error_handling_changes`: more or fewer `raise` statements, and
      a different set of raised exception names. */
  function ErrorChanges(oldContent: string, newContent: string): (r: seq<Impact>)
    ensures MoreRaises in r <==> RaiseCount(newContent) > RaiseCount(oldContent)
    ensures FewerRaises in r <==> RaiseCount(newContent) < RaiseCount(oldContent)
    ensures ExceptionTypesChanged in r <==> RaisedTypes(oldContent) != RaisedTypes(newContent)
    ensures forall x | x in r :: x == MoreRaises || x == FewerRaises || x == ExceptionTypesChanged
  {
    var oldRaises := RaiseCount(oldContent);
    var newRaises := RaiseCount(newContent);
    When(newRaises > oldRaises, MoreRaises) + When(newRaises < oldRaises, FewerRaises)
    + When(RaisedTypes(oldContent) != RaisedTypes(newContent), ExceptionTypesChanged)
  }

  // ---------------------------------------------------------------------------
  // The rules of `analyze_impact`
  // ---------------------------------------------------------------------------

  /** What the content rules read off the two revisions. */
  datatype Observations = Observations(
    removedExports: seq<string>,
    changedExports: seq<string>,
    api: seq<Impact>,
    config: seq<Impact>,
    errors: seq<Impact>)

  /** The exports that disappeared, the shared ones whose signature changed,
      and the API, constant and error-handling changes. */
  function Observe(oldContent: string, newContent: string): (o: Observations)
    ensures forall x :: x in o.removedExports <==> x in Exports(oldContent) && x !in Exports(newContent)
    ensures forall x :: x in o.changedExports <==>
      && x in Exports(oldContent) && x in Exports(newContent)
      && x in DefNames(oldContent) && x in DefNames(newContent)
      && SignatureString(oldContent, x) != SignatureString(newContent, x)
    ensures o.api == ApiChanges(oldContent, newContent)
    ensures o.config == ConfigChanges(oldContent, newContent)
    ensures o.errors == ErrorChanges(oldContent, newContent)
  {
    var oldExports := Exports(oldContent);
    var newExports := Exports(newContent);
    Observations(
      Minus(oldExports, newExports),
      ChangedExports(oldContent, newContent, Filter(oldExports, (x: string) => x in newExports)),
      ApiChanges(oldContent, newContent),
      ConfigChanges(oldContent, newContent),
      ErrorChanges(oldContent, newContent))
  }

  /** Rule 1: the breaking-change detector reported something. */
  function BreakingRule(breaking: bool): Findings {
    if breaking then Findings([BreakingDetected], [], [], [ApiDevelopers], [UpdateDependents, VersionBump])
    else Nothing
  }

  /** Rule 2: exports that disappeared, at most three named; dependents are
      looked up only when a non-empty project listing is given. */
  function RemovedExportsRule(removed: seq<string>, path: string, projectStructure: Option<seq<string>>): Findings {
    if |removed| == 0 then Nothing
    else
      var dependents :=
        if projectStructure.Some? && |projectStructure.value| > 0
        then FindPotentialDependents(path, removed, projectStructure.value) else [];
      Findings(
        [RemovedExports(|removed|, Take(removed, 3))] + When(|dependents| > 0, AffectsDependents(|dependents|)),
        dependents, [], [Importers], [])
  }

  /** Rule 3: shared exported functions whose parameters changed. */
  function ChangedExportsRule(changed: seq<string>): Findings {
    if |changed| == 0 then Nothing
    else Findings([SignatureChanges(|changed|)], [], [], [Callers], [ReviewCallSites])
  }

  /** Rule 4: documentation or annotations changed. */
  function ApiRule(api: seq<Impact>, path: string): Findings {
    if |api| == 0 then Nothing
    else Findings(api, [], ["API documentation for " + path], [ApiConsumers], [])
  }

  /** Rule 5: constants changed. */
  function ConfigRule(config: seq<Impact>): Findings {
    if |config| == 0 then Nothing
    else Findings(config, [], [], [ConfigurationUsers], [])
  }

  /** Rule 6: error handling changed. */
  function ErrorRule(errors: seq<Impact>): Findings {
    if |errors| == 0 then Nothing
    else Findings(errors, [], [], [ExceptionHandlers], [ReviewErrorHandling])
  }

  /** Rule 7: two independent size checks. */
  function SizeRule(added: nat, removed: nat): (f: Findings)
    ensures LargeChange in f.recs <==> added > 100
    ensures SignificantRemoval in f.recs <==> removed > added * 2
    ensures f.impacts == [] && f.modules == [] && f.docs == [] && f.users == []
    ensures forall a | a in f.recs :: a == LargeChange || a == SignificantRemoval
  {
    Findings([], [], [], [], When(added > 100, LargeChange) + When(removed > added * 2, SignificantRemoval))
  }

  /** Rules 1 to 6 in order. */
  function ContentRules(o: Observations, path: string, projectStructure: Option<seq<string>>, breaking: bool): Findings {
    BreakingRule(breaking)
      .Then(RemovedExportsRule(o.removedExports, path, projectStructure))
      .Then(ChangedExportsRule(o.changedExports))
      .Then(ApiRule(o.api, path))
      .Then(ConfigRule(o.config))
      .Then(ErrorRule(o.errors))
  }

  /** The default impact, then the placeholders for empty lists. */
  function Finish(f: Findings, changed: bool, path: string, breaking: bool): (r: ImpactReport)
    ensures |r.impact| > 0 && |r.affectedUsers| > 0 && |r.recommendations| > 0
    ensures r.file == path && r.hasBreakingChanges == breaking
    ensures r.outdatedDocs == f.docs
    ensures forall x :: x in r.affectedModules <==> x in f.modules
    ensures f.modules == [] ==> r.affectedModules == []
    ensures |f.impacts| > 0 ==> r.impact == f.impacts
    ensures |f.recs| > 0 ==> r.recommendations == f.recs
    ensures |f.recs| == 0 ==> r.recommendations == [ReviewAndTest]
    ensures CodeModified in r.impact <==> CodeModified in f.impacts || (|f.impacts| == 0 && changed)
    ensures NoSignificantImpact in r.impact <==> NoSignificantImpact in f.impacts || (|f.impacts| == 0 && !changed)
  {
    var g := if |f.impacts| == 0 && changed then f.Then(Findings([CodeModified], [], [], [DevelopersAndQa], [])) else f;
    assert g.modules == f.modules && g.docs == f.docs && g.recs == f.recs;
    ImpactReport(
      if |g.impacts| > 0 then g.impacts else [NoSignificantImpact],
      Dedup(g.modules),
      g.docs,
      if |g.users| > 0 then Dedup(g.users) else [Developers],
      if |g.recs| > 0 then g.recs else [ReviewAndTest],
      path,
      breaking)
  }

  /** `analyze_impact` on the change and breaking-change reports of the same
      two revisions. */
  function AnalyzeImpactWith(
    oldContent: string, newContent: string, path: string, projectStructure: Option<seq<string>>,
    change: ChangeDetector.ChangeReport, breaking: bool): ImpactReport
  {
    var f := ContentRules(Observe(oldContent, newContent), path, projectStructure, breaking)
      .Then(SizeRule(change.addedLines, change.removedLines));
    Finish(f, change.changed, path, breaking)
  }

  /** `analyze_impact`. */
  function AnalyzeImpact(
    oldContent: string, newContent: string, path: string, projectStructure: Option<seq<string>>,
    differ: Differ, parser: BreakingChange.Parser): (r: ImpactReport)
    requires IsLineDiffer(differ)
    ensures |r.impact| > 0 && |r.affectedUsers| > 0 && |r.recommendations| > 0
    ensures r.file == path
    ensures r.hasBreakingChanges == BreakingChange.DetectBreakingChanges(oldContent, newContent, path, parser).breakingChange
  {
    AnalyzeImpactWith(oldContent, newContent, path, projectStructure,
      ChangeDetector.DetectChanges(oldContent, newContent, path, differ),
      BreakingChange.DetectBreakingChanges(oldContent, newContent, path, parser).breakingChange)
  }

  // ---------------------------------------------------------------------------
  // Properties of the rules, for any observations
  // ---------------------------------------------------------------------------

  /** No rule among 1 to 6 fired. */
  predicate NoRuleImpact(o: Observations, breaking: bool) {
    && !breaking
    && |o.removedExports| == 0 && |o.changedExports| == 0
    && |o.api| == 0 && |o.config| == 0 && |o.errors| == 0
  }

  /** What rules 1 to 6 contribute, list by list. */
  lemma ContentRulesShape(o: Observations, path: string, projectStructure: Option<seq<string>>, breaking: bool)
    requires CodeModified !in o.api + o.config + o.errors
    ensures var f := ContentRules(o, path, projectStructure, breaking);
      && f.modules == []
      && f.docs == (if |o.api| > 0 then ["API documentation for " + path] else [])
      && LargeChange !in f.recs && SignificantRemoval !in f.recs
      && CodeModified !in f.impacts
      && (|f.impacts| == 0 <==> NoRuleImpact(o, breaking))
      && (breaking ==> f.impacts[0] == BreakingDetected && f.recs[..2] == [UpdateDependents, VersionBump])
  {
    ContentRulesRecs(o, path, projectStructure, breaking);
    ContentRulesImpacts(o, path, projectStructure, breaking);
  }

  lemma ContentRulesRecs(o: Observations, path: string, projectStructure: Option<seq<string>>, breaking: bool)
    ensures var f := ContentRules(o, path, projectStructure, breaking);
      && LargeChange !in f.recs && SignificantRemoval !in f.recs
      && (breaking ==> |f.recs| >= 2 && f.recs[..2] == [UpdateDependents, VersionBump])
      && (ReviewErrorHandling in f.recs <==> |o.errors| > 0)
      && (ReviewCallSites in f.recs <==> |o.changedExports| > 0)
  {
    ContentRecsParts(o, path, projectStructure, breaking);
    AdviceOrder(breaking, |o.changedExports| > 0, |o.errors| > 0);
  }

  /** Only rules 1, 3 and 6 recommend anything. */
  lemma ContentRecsParts(o: Observations, path: string, projectStructure: Option<seq<string>>, breaking: bool)
    ensures ContentRules(o, path, projectStructure, breaking).recs
      == BreakingRule(breaking).recs + ChangedExportsRule(o.changedExports).recs + ErrorRule(o.errors).recs
  {
    var r1 := BreakingRule(breaking);
    var r2 := RemovedExportsRule(o.removedExports, path, projectStructure);
    var r3 := ChangedExportsRule(o.changedExports);
    var f := ContentRules(o, path, projectStructure, breaking);
    assert r2.recs == [];
    assert f.recs == r1.recs + r2.recs + r3.recs + [] + [] + ErrorRule(o.errors).recs;
  }

  /** The advice of rules 1, 3 and 6 in order. */
  lemma AdviceOrder(breaking: bool, changed: bool, errors: bool)
    ensures var recs := BreakingRule(breaking).recs
        + (if changed then [ReviewCallSites] else []) + (if errors then [ReviewErrorHandling] else []);
      && LargeChange !in recs && SignificantRemoval !in recs
      && (breaking ==> |recs| >= 2 && recs[..2] == [UpdateDependents, VersionBump])
      && (ReviewErrorHandling in recs <==> errors)
      && (ReviewCallSites in recs <==> changed)
  {
  }


  lemma ContentRulesImpacts(o: Observations, path: string, projectStructure: Option<seq<string>>, breaking: bool)
    requires CodeModified !in o.api + o.config + o.errors
    ensures var f := ContentRules(o, path, projectStructure, breaking);
      && CodeModified !in f.impacts
      && (|f.impacts| == 0 <==> NoRuleImpact(o, breaking))
      && (breaking ==> f.impacts[0] == BreakingDetected)
  {
    var r1 := BreakingRule(breaking);
    var r2 := RemovedExportsRule(o.removedExports, path, projectStructure);
    var r3 := ChangedExportsRule(o.changedExports);
    var f := ContentRules(o, path, projectStructure, breaking);
    assert f.impacts == r1.impacts + r2.impacts + r3.impacts + o.api + o.config + o.errors;
  }

  /** The content changes never include the generic "Code modified" impact. */
  lemma ContentChangesNotGeneric(oldContent: string, newContent: string)
    ensures CodeModified !in ApiChanges(oldContent, newContent) + ConfigChanges(oldContent, newContent)
      + ErrorChanges(oldContent, newContent)
  {
  }

  // ---------------------------------------------------------------------------
  // Properties of `analyze_impact`
  // ---------------------------------------------------------------------------

  /** No rule ever contributes an affected module, so the list is empty. */
  lemma AffectedModulesAlwaysEmpty(
    oldContent: string, newContent: string, path: string, projectStructure: Option<seq<string>>,
    change: ChangeDetector.ChangeReport, breaking: bool)
    ensures AnalyzeImpactWith(oldContent, newContent, path, projectStructure, change, breaking).affectedModules == []
  {
    ContentChangesNotGeneric(oldContent, newContent);
    ContentRulesShape(Observe(oldContent, newContent), path, projectStructure, breaking);
  }

  /** A breaking change leads the impact list and puts the update and
      version-bump advice first among the recommendations. */
  lemma BreakingLeads(
    oldContent: string, newContent: string, path: string, projectStructure: Option<seq<string>>,
    change: ChangeDetector.ChangeReport)
    ensures var r := AnalyzeImpactWith(oldContent, newContent, path, projectStructure, change, true);
      && r.hasBreakingChanges
      && r.impact[0] == BreakingDetected
      && |r.recommendations| >= 2 && r.recommendations[..2] == [UpdateDependents, VersionBump]
  {
    ContentChangesNotGeneric(oldContent, newContent);
    BreakingLeadsFor(Observe(oldContent, newContent), path, projectStructure, change);
  }

  lemma BreakingLeadsFor(
    o: Observations, path: string, projectStructure: Option<seq<string>>, change: ChangeDetector.ChangeReport)
    requires CodeModified !in o.api + o.config + o.errors
    ensures var r := Finish(
        ContentRules(o, path, projectStructure, true).Then(SizeRule(change.addedLines, change.removedLines)),
        change.changed, path, true);
      && r.hasBreakingChanges
      && r.impact[0] == BreakingDetected
      && |r.recommendations| >= 2 && r.recommendations[..2] == [UpdateDependents, VersionBump]
  {
    ContentRulesShape(o, path, projectStructure, true);
    var c := ContentRules(o, path, projectStructure, true);
    var f := c.Then(SizeRule(change.addedLines, change.removedLines));
    assert f.impacts == c.impacts;
    assert f.recs[..2] == c.recs[..2];
  }

  /** The API documentation of the file is listed as outdated exactly when the
      number of docstrings or of return annotations changed. */
  lemma OutdatedDocsIff(
    oldContent: string, newContent: string, path: string, projectStructure: Option<seq<string>>,
    change: ChangeDetector.ChangeReport, breaking: bool)
    ensures AnalyzeImpactWith(oldContent, newContent, path, projectStructure, change, breaking).outdatedDocs
      == (if DocstringCount(oldContent) != DocstringCount(newContent) || ReturnHintCount(oldContent) != ReturnHintCount(newContent)
          then ["API documentation for " + path] else [])
  {
    ContentChangesNotGeneric(oldContent, newContent);
    var api := ApiChanges(oldContent, newContent);
    assert |api| > 0 <==> DocstringsModified in api || TypeHintsModified in api;
    ContentRulesShape(Observe(oldContent, newContent), path, projectStructure, breaking);
  }

  /** "Review error handling in dependent code" is recommended exactly when
      some error-handling change was found, and "Review call sites for
      compatibility" exactly when some exported function's parameters changed. */
  lemma ReviewAdviceIff(
    oldContent: string, newContent: string, path: string, projectStructure: Option<seq<string>>,
    change: ChangeDetector.ChangeReport, breaking: bool)
    ensures var recs := AnalyzeImpactWith(oldContent, newContent, path, projectStructure, change, breaking).recommendations;
      var o := Observe(oldContent, newContent);
      && (ReviewErrorHandling in recs <==> |ErrorChanges(oldContent, newContent)| > 0)
      && (ReviewCallSites in recs <==> |o.changedExports| > 0)
  {
    ReviewAdviceFor(Observe(oldContent, newContent), path, projectStructure, change, breaking);
  }

  lemma ReviewAdviceFor(
    o: Observations, path: string, projectStructure: Option<seq<string>>, change: ChangeDetector.ChangeReport, breaking: bool)
    ensures var recs := Finish(
        ContentRules(o, path, projectStructure, breaking).Then(SizeRule(change.addedLines, change.removedLines)),
        change.changed, path, breaking).recommendations;
      && (ReviewErrorHandling in recs <==> |o.errors| > 0)
      && (ReviewCallSites in recs <==> |o.changedExports| > 0)
  {
    ContentRulesRecs(o, path, projectStructure, breaking);
    var c := ContentRules(o, path, projectStructure, breaking);
    var sz := SizeRule(change.addedLines, change.removedLines);
    var f := c.Then(sz);
    assert f.recs == c.recs + sz.recs;
    assert ReviewErrorHandling !in sz.recs && ReviewCallSites !in sz.recs;
  }


  /** The two size recommendations are independent: one for more than 100
      added lines, one for more than twice as many removed as added. */
  lemma SizeRecommendations(
    oldContent: string, newContent: string, path: string, projectStructure: Option<seq<string>>,
    change: ChangeDetector.ChangeReport, breaking: bool)
    ensures var recs := AnalyzeImpactWith(oldContent, newContent, path, projectStructure, change, breaking).recommendations;
      && (LargeChange in recs <==> change.addedLines > 100)
      && (SignificantRemoval in recs <==> change.removedLines > change.addedLines * 2)
  {
    SizeRecommendationsFor(Observe(oldContent, newContent), path, projectStructure, change, breaking);
  }

  lemma SizeRecommendationsFor(
    o: Observations, path: string, projectStructure: Option<seq<string>>, change: ChangeDetector.ChangeReport, breaking: bool)
    ensures var recs := Finish(
        ContentRules(o, path, projectStructure, breaking).Then(SizeRule(change.addedLines, change.removedLines)),
        change.changed, path, breaking).recommendations;
      && (LargeChange in recs <==> change.addedLines > 100)
      && (SignificantRemoval in recs <==> change.removedLines > change.addedLines * 2)
  {
    ContentRulesRecs(o, path, projectStructure, breaking);
    var c := ContentRules(o, path, projectStructure, breaking);
    var sz := SizeRule(change.addedLines, change.removedLines);
    assert c.Then(sz).recs == c.recs + sz.recs;
  }


  /** The generic "Code modified" impact is given exactly when no other rule
      fired and the diff reported a change. */
  lemma DefaultImpactIff(
    oldContent: string, newContent: string, path: string, projectStructure: Option<seq<string>>,
    change: ChangeDetector.ChangeReport, breaking: bool)
    ensures CodeModified in AnalyzeImpactWith(oldContent, newContent, path, projectStructure, change, breaking).impact
      <==> NoRuleImpact(Observe(oldContent, newContent), breaking) && change.changed
  {
    ContentChangesNotGeneric(oldContent, newContent);
    ContentRulesShape(Observe(oldContent, newContent), path, projectStructure, breaking);
  }

  /** Two identical revisions: only placeholders, no modules, no outdated docs,
      not breaking. */
  lemma IdenticalContentsDefaults(content: string, path: string, projectStructure: Option<seq<string>>, differ: Differ,
    parser: BreakingChange.Parser)
    requires IsLineDiffer(differ)
    ensures AnalyzeImpact(content, content, path, projectStructure, differ, parser)
      == ImpactReport([NoSignificantImpact], [], [], [Developers], [ReviewAndTest], path, false)
  {
    BreakingChange.IdenticalContentsNotBreaking(content, path, parser);
    NoObservationsForSameContent(content);
    var o := Observe(content, content);
    assert ContentRules(o, path, projectStructure, false).Then(SizeRule(0, 0)) == Nothing;
  }

  /** Comparing a revision with itself observes nothing. */
  lemma NoObservationsForSameContent(content: string)
    ensures NoRuleImpact(Observe(content, content), false)
  {
    MinusSelf(Exports(content));
  }
}
