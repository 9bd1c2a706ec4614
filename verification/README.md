# Change intelligence, agent helpers, memory and retrieval — a Dafny model

This project models the pure logic of a code-change assistant's Python backend.

**Change-intelligence pipeline** (`backend/change_intelligence/`)
- `change_detector.py` diffs two revisions of a file line by line. It counts added and removed lines and writes a reason and a summary.
- `breaking_change.py` extracts function signatures, compares them and classifies breaking changes by severity.
- `impact_analysis.py` runs a fixed sequence of heuristic rules that fill the impact, affected-user, recommendation and outdated-documentation lists.
- `__init__.py` merges the three results into one record.

**Agent layer** (`backend/agent/`)
- string tools;
- a rule-based planner;
- a length-based confidence classifier.

**Memory layer** (`backend/memory/`)
- an in-memory store of questions, explanations, decisions and change contexts, with id numbering, tag search and recency ranking;
- keyword-scored search and response formatting over that store.

**Retrieval helpers** (`backend/pathway_engine/`)
- filename detection in questions and filtering of retrieved snippets (`query/retriever.py`);
- serialisation of snippets into prompt context (`query/context_builder.py`);
- the hash-based version tracker (`state/version_tracker.py`);
- the hash-keyed live index (`indexing/live_index.py`).

## How the model maps onto the program

- One module per source file, plus three shared modules:
  - `Wrappers`: `Option`;
  - `Text`: string helpers with Python's semantics — `strip`, `split`, `join`, `lower`, slicing with negative bounds, and decimal rendering;
  - `SourcePatterns`: one hand-written matcher per regular expression the program uses.
- Matchers follow Python's `re` semantics:
  - `re.findall` is a non-overlapping left-to-right scan;
  - `re.search` finds the leftmost match;
  - greedy and lazy quantifiers and alternation order are respected.
- Character classes (`\s`, `\w`, `[a-zA-Z]`) are the ASCII ones.
- `difflib.unified_diff` is an abstract line differ.
  - It returns an edit script (`Keep`/`Insert`/`Delete` per line).
  - The script reproduces the old lines on one side and the new lines on the other.
  - It keeps every line when the two lists are equal. No minimality is assumed.
- The Python AST parser used by the breaking-change detector is an oracle, `string -> Option<ParsedModule>`. `None` stands for a `SyntaxError`, and then the regex fallback is modelled concretely.
- Where Python iterates a `set` whose order is unspecified (for example "the first three added functions"), the model uses the names in first-occurrence order. Contracts are stated independently of that order: membership, distinctness, and a count of `min(n, |S|)`.
- Content hashes (SHA-256 in the source) are function parameters.
- The confidence score is exact `real` arithmetic.
- Retrieval's vector-store client is a function parameter `(query, k) -> snippets`.
- Dictionaries returned by the program are datatypes with one field per key.

## Model

| member | source | states |
|---|---|---|
| ChangeDetector.DiffBody | backend/change_intelligence/change_detector.py:47-53 | the body of the unified diff has one line per edit, tagged ' ', '+' or '-' in front of the line's text |
| ChangeDetector.HeadersAreSkipped | backend/change_intelligence/change_detector.py:73 | the "---", "+++" and "@@" header lines difflib writes around the body are filtered out before counting |
| ChangeDetector.RoleOfDiffLine | backend/change_intelligence/change_detector.py:73-82 | a diff line is counted as added exactly when it is an insertion whose text does not start with "++", and as removed exactly when it is a deletion whose text does not start with "--"; context lines never count |
| ChangeDetector.ContextLines | backend/change_intelligence/change_detector.py:79-82 | one stripped context line is collected for every counted line |
| ChangeDetector.ScanDiff | backend/change_intelligence/change_detector.py:67-82 | the counting loop returns the number of added lines, the number of removed lines and the collected lines, in order |
| ChangeDetector.CountsOfScript | backend/change_intelligence/change_detector.py:73-82 | over a whole edit script, added_lines counts exactly the insertions not starting with "++" and removed_lines the deletions not starting with "--" |
| ChangeDetector.Shown | backend/change_intelligence/change_detector.py:134 | at most n names are shown, all drawn from the set, distinct, and exactly min(n, size) of them |
| ChangeDetector.CountedNamesClause | backend/change_intelligence/change_detector.py:133-136 | a function or class clause opens with its verb ("Added"/"Removed") |
| ChangeDetector.ImportsClause | backend/change_intelligence/change_detector.py:145-148 | an import clause opens with its verb |
| ChangeDetector.StructuralClauses | backend/change_intelligence/change_detector.py:127-160 | every function, import and class clause starts with "Added" or "Removed" |
| ChangeDetector.ClausesFor | backend/change_intelligence/change_detector.py:133-160 | the six clauses, each emitted only when its name list is non-empty (imports only when the import sets differ), are all structural |
| ChangeDetector.NetClause | backend/change_intelligence/change_detector.py:163-169 | the net-line clause starts with "Code " |
| ChangeDetector.AssembledClauses | backend/change_intelligence/change_detector.py:162-176 | whatever the structural clauses are, the list is non-empty with a non-empty first clause, a "Code " clause is present iff no structural clause fired, and the logic clause is present iff a keyword matched |
| ChangeDetector.ReasonNeverFallsBack | backend/change_intelligence/change_detector.py:162-176 | there is always at least one clause, so the reason is their "; "-join and never the "no specific patterns" fallback, and never empty |
| ChangeDetector.GenerateReason | backend/change_intelligence/change_detector.py:110-176 | the reason is never empty and contains every clause |
| ChangeDetector.NetClauseIffNoStructural | backend/change_intelligence/change_detector.py:163-169 | the net-line statement appears exactly when no function, import or class clause fired |
| ChangeDetector.LogicClauseIff | backend/change_intelligence/change_detector.py:171-174 | "Logic flow or control structures were modified" appears exactly when some keyword occurs in the lower-cased space-joined changed lines |
| ChangeDetector.SubstringKeywordMatch | backend/change_intelligence/change_detector.py:172-173 | keywords match as substrings: the line "format" triggers the logic clause through "for" |
| ChangeDetector.Shorten | backend/change_intelligence/change_detector.py:196 | a sample line is kept when at most 80 characters, else cut to its first 80 characters followed by "..." |
| ChangeDetector.SampleBullets | backend/change_intelligence/change_detector.py:193-197 | each bullet is "  - " plus the shortened form of some non-blank sample line, and there are no more bullets than lines |
| ChangeDetector.CountsSentence | backend/change_intelligence/change_detector.py:189 | the counts sentence starts with a digit |
| ChangeDetector.Headline | backend/change_intelligence/change_detector.py:186 | the headline starts with "File" |
| ChangeDetector.SampleSection | backend/change_intelligence/change_detector.py:191-197 | the sample section holds only the introduction and bullets drawn from the first three samples |
| ChangeDetector.SummaryOpensWithHeadline | backend/change_intelligence/change_detector.py:186-199 | the summary starts with "File {path} was modified." |
| ChangeDetector.GenerateSummary | backend/change_intelligence/change_detector.py:178-199 | the summary contains the headline, the counts sentence whenever a line was counted, and every line of the sample section |
| ChangeDetector.CountsSentenceIff | backend/change_intelligence/change_detector.py:188-189 | the summary has a counts sentence exactly when added > 0 or removed > 0 |
| ChangeDetector.BulletsFromFirstSamples | backend/change_intelligence/change_detector.py:191-197 | at most three bullets are shown, each built from a non-blank line among the first three samples |
| ChangeDetector.DetectChanges | backend/change_intelligence/change_detector.py:43-108 | changed iff the contents differ; unchanged gives the fixed "No changes detected" record with zero counts; changed gives files_changed == [path], modified == added + removed, added and removed equal to the counted insertions and deletions of the diff script, a summary opening with the headline and a non-empty reason |
| ChangeDetector.ChangedButNothingCounted | backend/change_intelligence/change_detector.py:73-82 | a change can be reported with 0 added and 0 removed lines: inserting the single line "++x" is dropped by the header filter |
| ChangeDetector.OnlyInsertions | backend/change_intelligence/change_detector.py:47-53 | an edit script that reads no old line consists of insertions of the new lines |
| ChangeDetector.ChangedPathsIff | backend/change_intelligence/change_detector.py:244-252 | a path is listed as changed exactly when some entry with that path has different old and new contents |
| ChangeDetector.FileReport | backend/change_intelligence/change_detector.py:244-249 | one entry's report, a missing side read as empty: changed exactly when its two versions differ, then naming only its path, and always with a reason |
| ChangeDetector.CompareMultipleFiles | backend/change_intelligence/change_detector.py:241-272 | files_changed lists the changed files in input order; changed iff some file changed; the totals are the sums of the per-file counts; modified = added + removed; the details are keyed by exactly the changed files; the reason is never empty |
| LineDiff.FirstLineLength | backend/change_intelligence/change_detector.py:43-44 | the first line of a non-empty text, with its line break, has between 1 and all of the text's characters |
| LineDiff.SplitLinesKeep | backend/change_intelligence/change_detector.py:43-44 | `splitlines(keepends=True)` never yields an empty line |
| LineDiff.ConcatSplitLines | backend/change_intelligence/change_detector.py:43-44 | joining the kept-ends lines gives the text back |
| LineDiff.SplitLinesInjective | backend/change_intelligence/change_detector.py:43-55 | two texts have the same line lists exactly when they are equal, so "no diff" means "same content" |
| LineDiff.KeepOnlySidesAgree | backend/change_intelligence/change_detector.py:47-55 | a script without insertions or deletions reads and writes the same lines |
| LineDiff.DiffHasChangeIff | backend/change_intelligence/change_detector.py:47-55 | a diff of two line lists contains a change exactly when the lists differ |
| LineDiff.WholesaleDiff | backend/change_intelligence/change_detector.py:47-53 | a differ satisfying the diff contract exists (keep all when equal, else delete all and insert all) |
| LineDiff.SidesOfAppend | backend/change_intelligence/change_detector.py:47-53 | the sides of concatenated scripts are the concatenated sides |
| AgentTools.Summarize | backend/agent/tools.py:2-3 | text of at most max_length characters is returned unchanged, longer text is cut to its first max_length characters plus "...", and the result is at most max_length + 3 long |
| AgentTools.SummaryKeepsPrefix | backend/agent/tools.py:2-3 | for a non-negative limit, text longer than the limit becomes exactly its first max_length characters followed by "..." |
| AgentTools.NonBlankLines | backend/agent/tools.py:6 | a line is kept exactly when it is a line of the text that is not blank |
| AgentTools.ExtractKeyPoints | backend/agent/tools.py:5-7 | the result is the first min(num_points, count) non-blank lines, in order |
| AgentTools.ExtractChanges | backend/agent/tools.py:9-16 | one entry per line of the `\n`-split text that starts with '+' or '-', in line order: entry k is "add" when the k-th such line starts with '+', else "remove", and every entry has file "unknown" |
| AgentTools.ChangesFollowLines | backend/agent/tools.py:11-15 | the entries correspond one for one, in order, to the lines starting with '+' or '-', each typed by that line's first character |
| AgentTools.ChangesCounted | backend/agent/tools.py:11-15 | there is one "add" entry per line starting with '+', one "remove" entry per line starting with '-', and no other entries |
| AgentTools.CompareVersions | backend/agent/tools.py:18-19 | "No differences" exactly when old == new, "Differences detected" otherwise |
| AgentTools.ExpressUncertainty | backend/agent/tools.py:21-22 | the text is "I may be mistaken, but " + lower(reason) + ".\n\n" |
| AgentTools.UncertaintyIgnoresQueryAndContext | backend/agent/tools.py:21-22 | the query and context do not affect the text |
| Planner.Quality | backend/agent/planner.py:11 | a missing "context_quality" reads as "limited" |
| Planner.PlanAsWritten | backend/agent/planner.py:10-28 | the plan is "uncertain" exactly when the quality is "limited", and otherwise always "summarize" |
| Planner.AsWrittenIgnoresQuery | backend/agent/planner.py:16-28 | neither the query nor the context affects the plan as written |
| Planner.ChangeQuestionMisrouted | backend/agent/planner.py:16-20 | "what changed" is answered with the summary plan, although the change-explanation branch was meant for it |
| Planner.IntendedPlan | backend/agent/planner.py:10-28 | with the summary test written as intended, each branch is taken exactly when its keywords occur in the lower-cased query and no earlier branch applied |
| Planner.PlanIgnoresContext | backend/agent/planner.py:10-28 | the context argument never affects the plan |
| Confidence.Score | backend/agent/confidence.py:12 | the score lies in [0, 1], is 1 exactly when the context has at least 1500 characters, and is len/1500 below that |
| Confidence.Assess | backend/agent/confidence.py:11-21 | level is "high" iff len > 1200, "medium" iff 750 < len <= 1200, "low" iff len <= 750; hedging iff the level is not "high"; factors == {"context": score} |
| Confidence.AssessDependsOnLengthOnly | backend/agent/confidence.py:11-21 | query, answer, metadata and the context's characters do not matter, only its length |
| Confidence.HedgePhrase | backend/agent/confidence.py:23-24 | the phrase is empty exactly when the level is "high", and otherwise "I might be mistaken, but " |
| Confidence.HedgeAgreesWithAssessment | backend/agent/confidence.py:19-24 | the hedge phrase for the assessed level is non-empty exactly when the assessment says to hedge |
| BreakingChange.DefHeader | backend/change_intelligence/breaking_change.py:173-179 | a line yields a header exactly when `^\s*def\s+(\w+)\s*\(` matches at its start and some later ")" is followed by optional blanks and ":"; the name is the non-empty `\w+` capture, and the parameter text runs from after "(" to the FIRST such ")" (the lazy `.*?`) |
| BreakingChange.WithoutStars | backend/change_intelligence/breaking_change.py:189 | removing '*' leaves no '*' and never lengthens the name |
| BreakingChange.CleanArgs | backend/change_intelligence/breaking_change.py:189 | empty pieces are dropped and the kept names contain no '*' |
| BreakingChange.CleanArgsKeepsNames | backend/change_intelligence/breaking_change.py:189 | the cleaned list has one entry per non-empty piece, in order, and entry k is the k-th non-empty piece with every '*' removed |
| BreakingChange.CleanArgsAppend | backend/change_intelligence/breaking_change.py:189 | appending a piece appends its star-free form when it is non-empty and nothing otherwise |
| BreakingChange.ParamNames | backend/change_intelligence/breaking_change.py:183 | each comma piece becomes its stripped text before the first '=' |
| BreakingChange.ParseParameters | backend/change_intelligence/breaking_change.py:182-194 | blank parameter text gives no args and no flags; otherwise defaults_count is the number of '=', varargs iff "*args" occurs, kwargs iff "**kwargs" occurs, and the args are, in order, the non-empty comma pieces' names (stripped text before the first '=') with every '*' removed |
| BreakingChange.SignatureOfLine | backend/change_intelligence/breaking_change.py:175-203 | a line gives a signature exactly when it has a def header; the signature carries the given 1-based line number, the header's name, and the args, defaults count and star flags parsed from the header's parameter text |
| BreakingChange.SignaturesOfLines | backend/change_intelligence/breaking_change.py:167-205 | every signature is the one its own line gives, every line that gives a signature contributes it, and the line numbers strictly increase (one per line, in line order) |
| BreakingChange.ScanLines | backend/change_intelligence/breaking_change.py:167-205 | scanning the lines one by one lists every line's result and only those, in line order, at most one per line |
| BreakingChange.LineResultsStep | backend/change_intelligence/breaking_change.py:175-203 | a line's result (if any) followed by the results of the later lines lists the results of all lines in order |
| BreakingChange.ExtractClasses | backend/change_intelligence/breaking_change.py:244-260 | the class names form a set: the parser's class names when the text parses, otherwise the captures of one MULTILINE `findall` of `^\s*class\s+(\w+)` over the whole content |
| BreakingChange.RegexSignatures | backend/change_intelligence/breaking_change.py:167-205 | the regex fallback lists exactly the signatures of the `\n`-split lines, line numbers starting at 1, in line order |
| BreakingChange.ExtractSignatures | backend/change_intelligence/breaking_change.py:135-165 | the parser's functions when the text parses; otherwise exactly the regex fallback's signatures, one per matching line in order |
| BreakingChange.EmptyParameterText | backend/change_intelligence/breaking_change.py:190-194 | a def with blank parameter text has no args, no defaults, no *args and no **kwargs |
| BreakingChange.StarParametersKeptByName | backend/change_intelligence/breaking_change.py:189 | "*args" and "**kwargs" stay in args as "args" and "kwargs" |
| BreakingChange.CommaAlternativesRedundant | backend/change_intelligence/breaking_change.py:185-186 | the "*args," and "**kwargs," alternatives add nothing to the plain tests |
| BreakingChange.SignatureIssues | backend/change_intelligence/breaking_change.py:217-240 | each rule's text (more required, fewer args, order changed, *args removed, **kwargs removed) is listed exactly when its rule fires, the texts come in that rule order, no other text is listed, and there are no sub-reasons exactly when no rule fires |
| BreakingChange.IssueRules | backend/change_intelligence/breaking_change.py:223-240 | the five sub-reason texts are told apart by their rule number 0 to 4, in the order the checks run |
| BreakingChange.RulesPresent | backend/change_intelligence/breaking_change.py:217-240 | appending each rule's text when its rule fires lists a text exactly when its rule fires, lists no other text, and lists nothing exactly when no rule fires |
| BreakingChange.RulesInOrder | backend/change_intelligence/breaking_change.py:217-240 | the texts appended rule by rule come out in strictly increasing rule order |
| BreakingChange.CompareSignatures | backend/change_intelligence/breaking_change.py:207-242 | the result is None exactly when none of the five rules fires |
| BreakingChange.CompareWithItself | backend/change_intelligence/breaking_change.py:207-242 | a signature compared with itself gives None |
| BreakingChange.AddedRequiredReported | backend/change_intelligence/breaking_change.py:219-224 | when the required count grows, the text contains "added {delta} required parameter(s)" |
| BreakingChange.RemovedParametersReported | backend/change_intelligence/breaking_change.py:226-229 | when args shrink, the text contains "removed parameter(s): " and the old args past the new length, joined by ", " |
| BreakingChange.IssueReported | backend/change_intelligence/breaking_change.py:236-242 | every sub-reason appears in the "; "-joined text |
| BreakingChange.RenameInPlace | backend/change_intelligence/breaking_change.py:231-234 | renaming one of distinct parameters to a fresh name goes unreported exactly when it is the last parameter |
| BreakingChange.RenameLastOfTwo | backend/test_change_intelligence.py:15-30 | renaming `format` to `output_format` in `process_data(data, format="json")` is not reported as incompatible |
| BreakingChange.NameSet | backend/change_intelligence/breaking_change.py:67-68 | the name set holds exactly the signatures' names, each once |
| BreakingChange.LastNamed | backend/change_intelligence/breaking_change.py:86-91 | the by-name lookup finds a signature exactly when one has that name (the dictionary keeps the last one) |
| BreakingChange.RemovedFunctionEvents | backend/change_intelligence/breaking_change.py:70-78 | exactly one high "function_removed" event, located at the path, per removed name |
| BreakingChange.SignatureEvents | backend/change_intelligence/breaking_change.py:89-100 | the high "signature_changed" events are exactly those of the shared names whose signatures are incompatible |
| BreakingChange.ClassEvents | backend/change_intelligence/breaking_change.py:102-113 | exactly one high "class_removed" event, located at the path, per removed class |
| BreakingChange.MethodEvents | backend/change_intelligence/breaking_change.py:262-289 | one medium "method_removed" event, located at "unknown", for exactly each public `def` name of the old text that the new text lacks, none repeated |
| BreakingChange.SignatureEventFor | backend/change_intelligence/breaking_change.py:89-100 | a shared name gets an event exactly when its last old and new definitions are incompatible, located at "{path}:{line of the new definition}" |
| BreakingChange.RemovedMethodsArePublic | backend/change_intelligence/breaking_change.py:276-281 | a reported method name has at least two characters and starts with a letter |
| BreakingChange.RemovedFunctionReported | backend/change_intelligence/breaking_change.py:67-78 | "Function 'f' was removed" is reported exactly when the old version defines f and the new one does not |
| BreakingChange.SignatureChangeReported | backend/change_intelligence/breaking_change.py:86-100 | a function both versions define is reported as changed when its signatures are incompatible, and every signature event comes from such a function |
| BreakingChange.RemovedClassReported | backend/change_intelligence/breaking_change.py:102-113 | "Class 'C' was removed" is reported exactly when the old class set has C and the new one does not |
| BreakingChange.RemovedMethodReported | backend/change_intelligence/breaking_change.py:115-117 | "Public method 'm' was removed" is reported exactly when m is a public `def` name of the old text and not of the new one, whatever the parser says |
| BreakingChange.RemovalReportedTwice | backend/change_intelligence/breaking_change.py:70-117 | a removed public function is reported both as a removed function and as a removed method |
| BreakingChange.Descriptions | backend/change_intelligence/breaking_change.py:125 | one description per event, in order |
| BreakingChange.DetectBreakingChanges | backend/change_intelligence/breaking_change.py:61-133 | breaking iff there are events iff the severity is not "none"; details are the "; "-join of the descriptions, or "No breaking changes detected"; file is the path |
| BreakingChange.ReportOf | backend/change_intelligence/breaking_change.py:119-133 | the report-level rules hold for any event list |
| BreakingChange.BreakingEvents | backend/change_intelligence/breaking_change.py:70-117 | the events come in group order (removed functions, changed signatures, removed classes, removed public methods); every removed-method event is of medium severity and every other event of high severity |
| BreakingChange.OverallSeverity | backend/change_intelligence/breaking_change.py:121-123 | "none" exactly when there are no events; no event ranks above the result; a "high" or "medium" result is the severity of some event |
| BreakingChange.MaxRankBounds | backend/change_intelligence/breaking_change.py:121-123 | the maximum severity rank bounds every event and is attained by one |
| BreakingChange.SeverityIsMaximum | backend/change_intelligence/breaking_change.py:119-123 | the overall severity is the highest event severity, and "low" is never reported |
| BreakingChange.SeverityOfEvents | backend/change_intelligence/breaking_change.py:121-123 | for events that are all high or medium, the severity is their maximum and never "low" |
| BreakingChange.EventSeverities | backend/change_intelligence/breaking_change.py:70-117 | every event is high or medium |
| BreakingChange.GroupsInOrder | backend/change_intelligence/breaking_change.py:70-117 | events appended group after group are in group order |
| BreakingChange.EventGroups | backend/change_intelligence/breaking_change.py:70-117 | removed-function, signature and removed-class events are high and removed-method events medium, each list holding only its own kind |
| BreakingChange.InGroups | backend/change_intelligence/breaking_change.py:70-117 | four uniform groups appended in order are in group order, with medium severity exactly on removed methods |
| BreakingChange.GroupedEvents | backend/change_intelligence/breaking_change.py:61-117 | for any extracted signatures and classes, the events come in group order with the per-kind severities |
| BreakingChange.EventsInGroupOrder | backend/change_intelligence/breaking_change.py:70-117 | events come as function_removed, then signature_changed, then class_removed, then method_removed |
| BreakingChange.NoSignatureEventsForSameSignatures | backend/change_intelligence/breaking_change.py:89-100 | identical signature lists give no signature events |
| BreakingChange.IdenticalContentsNotBreaking | backend/change_intelligence/breaking_change.py:61-133 | identical contents give no events, not breaking, severity "none" and the no-breaking details |
| ImpactAnalysis.Exports | backend/change_intelligence/impact_analysis.py:137-160 | a name is exported exactly when it is a public `def` name, a public `class` name or an upper-case constant assigned at a line start, each listed once |
| ImpactAnalysis.ChangedExports | backend/change_intelligence/impact_analysis.py:162-191 | a shared export is changed exactly when both versions define it as a function and the parameter text of its first definition differs; identical versions change nothing |
| ImpactAnalysis.FindPotentialDependents | backend/change_intelligence/impact_analysis.py:193-222 | the dependents are never more than the project files |
| ImpactAnalysis.ApiChanges | backend/change_intelligence/impact_analysis.py:224-242 | "Documentation/docstrings were modified" iff the number of `"""…"""` blocks differs, "Type hints were added, removed, or modified" iff the number of `->\s*\w+` differs, and nothing else |
| ImpactAnalysis.ConfigChanges | backend/change_intelligence/impact_analysis.py:244-260 | no constant change is reported exactly when the two constant sets are equal; removed and added constants named are really removed and added |
| ImpactAnalysis.ConstantDifferences | backend/change_intelligence/impact_analysis.py:252-258 | the same, for any two lists of constant names |
| ImpactAnalysis.SameElementsIffNoDifference | backend/change_intelligence/impact_analysis.py:252-258 | two name lists have the same set exactly when neither has a name the other lacks |
| ImpactAnalysis.ErrorChanges | backend/change_intelligence/impact_analysis.py:262-287 | "Additional exceptions may be raised" iff the new `raise` count is greater, "Exception handling was modified" iff it is smaller, "Exception types changed" iff the raised `*Error`/`*Exception` sets differ, and nothing else |
| ImpactAnalysis.Observe | backend/change_intelligence/impact_analysis.py:61-110 | the removed exports are the old exports missing from the new ones, the changed exports are the shared ones whose parameters changed, and the API, configuration and error observations are those of the two versions |
| ImpactAnalysis.SizeRule | backend/change_intelligence/impact_analysis.py:116-120 | "Large change" iff added > 100 and "Significant code removal" iff removed > 2 · added, independently, and nothing else |
| ImpactAnalysis.Finish | backend/change_intelligence/impact_analysis.py:122-135 | impact, affected users and recommendations are never empty; the default "Code modified" impact is added exactly when no rule fired and the diff reported a change, "No significant impact detected" when none fired and it did not; affected modules keep the rules' modules; file and breaking flag are copied |
| ImpactAnalysis.AnalyzeImpact | backend/change_intelligence/impact_analysis.py:51-135 | the three placeholder-defaulted lists are non-empty, file is the path, and has_breaking_changes is the breaking detector's flag |
| ImpactAnalysis.ContentRulesShape | backend/change_intelligence/impact_analysis.py:67-114 | rules 1 to 6 add no module, outdated docs exactly for API changes, no size advice, no "Code modified" impact; they add no impact exactly when nothing was observed and nothing is breaking; a breaking change comes first |
| ImpactAnalysis.ContentRulesRecs | backend/change_intelligence/impact_analysis.py:67-114 | rules 1 to 6 never give size advice, put the update and version-bump advice first when breaking, recommend reviewing error handling iff errors changed and reviewing call sites iff exported signatures changed |
| ImpactAnalysis.ContentRecsParts | backend/change_intelligence/impact_analysis.py:67-114 | only the breaking, changed-signature and error-handling rules recommend anything |
| ImpactAnalysis.AdviceOrder | backend/change_intelligence/impact_analysis.py:67-114 | the advice of those three rules, in that order, has the properties above |
| ImpactAnalysis.ContentRulesImpacts | backend/change_intelligence/impact_analysis.py:67-114 | rules 1 to 6 add no impact exactly when nothing was observed and nothing is breaking, never the generic "Code modified", and a breaking change comes first |
| ImpactAnalysis.ContentChangesNotGeneric | backend/change_intelligence/impact_analysis.py:224-287 | no API, configuration or error observation is the generic "Code modified" impact |
| ImpactAnalysis.AffectedModulesAlwaysEmpty | backend/change_intelligence/impact_analysis.py:80-88 | affected_modules is always empty, because the dependent search never finds anything |
| ImpactAnalysis.BreakingLeads | backend/change_intelligence/impact_analysis.py:67-72 | when breaking, the first impact is "Breaking changes detected - may affect dependent code" and the recommendations begin with updating dependents and the version bump |
| ImpactAnalysis.BreakingLeadsFor | backend/change_intelligence/impact_analysis.py:67-72 | the same, for any observations |
| ImpactAnalysis.OutdatedDocsIff | backend/change_intelligence/impact_analysis.py:96-101 | outdated_docs is ["API documentation for {path}"] exactly when the docstring or return-annotation counts differ, else [] |
| ImpactAnalysis.ReviewAdviceIff | backend/change_intelligence/impact_analysis.py:90-114 | "Review error handling in dependent code" is recommended exactly when an error-handling change was found, "Review call sites for compatibility" exactly when exported signatures changed |
| ImpactAnalysis.ReviewAdviceFor | backend/change_intelligence/impact_analysis.py:90-114 | the same, for any observations |
| ImpactAnalysis.SizeRecommendations | backend/change_intelligence/impact_analysis.py:116-120 | the large-change advice appears iff added > 100, the removal advice iff removed > 2 · added |
| ImpactAnalysis.SizeRecommendationsFor | backend/change_intelligence/impact_analysis.py:116-120 | the same, for any observations |
| ImpactAnalysis.DefaultImpactIff | backend/change_intelligence/impact_analysis.py:122-125 | "Code modified - may require testing and review" appears exactly when no rule fired and the diff reported a change |
| ImpactAnalysis.IdenticalContentsDefaults | backend/change_intelligence/impact_analysis.py:116-135 | identical versions give impact ["No significant impact detected"], no modules, no docs, users ["Developers"], recommendations ["Review changes and test"], not breaking |
| ImpactAnalysis.NoObservationsForSameContent | backend/change_intelligence/impact_analysis.py:61-114 | comparing a version with itself observes nothing |
| ChangeIntelligence.AnalyzeCodeChanges | backend/change_intelligence/__init__.py:49-77 | file is the path; changed iff the versions differ; files_changed is [path] when changed and [] otherwise; breaking iff the severity is not "none"; the reason is never empty; impact, users and recommendations are non-empty; no affected modules; outdated docs exactly when the docstring or annotation counts differ |
| ChangeIntelligence.FieldsCopiedFromComponents | backend/change_intelligence/__init__.py:61-77 | every field is copied from the component that computes it, and the breaking flag agrees with the impact analysis's |
| ChangeIntelligence.IdenticalRevisions | backend/change_intelligence/__init__.py:61-77 | identical versions give the all-default record: unchanged, not breaking, severity "none", "No breaking changes detected", impact ["No significant impact detected"], zero counts |
| MemoryStore.Empty | backend/memory/memory_store.py:45-54 | a fresh store holds no entries in any category |
| MemoryStore.EntryId | backend/memory/memory_store.py:101 | an id is its category prefix followed by a number |
| MemoryStore.StoreQuestion | backend/memory/memory_store.py:82-115 | returns "q_{n}" for n the number of questions before the call, appends exactly one entry with omitted context and tags defaulting to empty, leaves the other categories and the creation time alone, updates last_updated, and keeps ids numbered by position |
| MemoryStore.StoreExplanation | backend/memory/memory_store.py:117-150 | the same for explanations with prefix "e_" and omitted related files and tags defaulting to empty |
| MemoryStore.StoreDecision | backend/memory/memory_store.py:152-188 | the same for design decisions with prefix "d_" and omitted alternatives, related files and tags defaulting to empty |
| MemoryStore.StoreChangeContext | backend/memory/memory_store.py:190-223 | the same for change contexts with prefix "c_" and omitted related questions defaulting to empty |
| MemoryStore.QuestionIdsUnique | backend/memory/memory_store.py:101-112 | in a store built by the store operations no two questions share an id |
| MemoryStore.ClearMemory | backend/memory/memory_store.py:289-301 | clearing empties every category and resets both timestamps |
| MemoryStore.IdsRestartAfterClear | backend/memory/memory_store.py:289-301 | after clearing, the next question gets id "q_0" again |
| MemoryStore.NewestFirst | backend/memory/memory_store.py:251-258 | the result is sorted by timestamp, newest first, has min(limit, n) entries taken from the input, and no item left out is newer than any item kept |
| MemoryStore.RecentItems | backend/memory/memory_store.py:241-265 | each category gives min(limit, size) of its own entries (a sub-bag of them), newest first, and no entry of a category left out is newer than one kept |
| MemoryStore.SearchByTags | backend/memory/memory_store.py:267-287 | an entry is returned exactly when it shares a tag with the query; change contexts, which have no tags, never are; an empty tag list finds nothing |
| MemoryStore.SearchKeepsOrder | backend/memory/memory_store.py:283 | the matching questions keep their stored order |
| Ranking.Insert | backend/memory/memory_store.py:253-257 | inserting adds exactly the one element to the multiset of the list |
| Ranking.SortDesc | backend/memory/memory_store.py:253-257 | sorting permutes its input |
| Ranking.InsertSorted | backend/memory/memory_store.py:253-257 | inserting into a list sorted highest-first keeps it sorted |
| Ranking.SortDescSorted | backend/memory/memory_store.py:253-257 | the sort's result is ordered highest key first |
| Ranking.PrefixSorted | backend/memory/memory_store.py:258 | the first n elements of a sorted list are sorted |
| Ranking.LeftOutNotAbove | backend/memory/memory_store.py:253-258 | cutting a sorted list after n elements leaves nothing out that ranks strictly above an element kept |
| Ranking.StrLessAsymmetric | backend/memory/memory_store.py:255 | string comparison is irreflexive and asymmetric |
| Ranking.StrLessTotal | backend/memory/memory_store.py:255 | any two distinct strings are ordered one way or the other |
| Ranking.StrLessTransitive | backend/memory/memory_store.py:255 | string comparison is transitive |
| Ranking.StrKeyOrder | backend/memory/memory_store.py:253-257 | ordering by a string key (the timestamp) is a strict weak order, so sorting by it is well defined |
| Ranking.IntKeyOrder | backend/memory/memory_retriever.py:68 | ordering by a numeric key (the score) is a strict weak order |
| MemoryRetriever.QueryWords | backend/memory/memory_retriever.py:53 | the query words are the whitespace-separated words of the lower-cased query, each once |
| MemoryRetriever.MatchScore | backend/memory/memory_retriever.py:259-313 | in tenths: a phrase match gives at least 2.0; each query word that is a word of "text1 text2" adds 0.5; the score is positive exactly when the phrase matches, a query word is a word of the text, a query word occurs in the joined tags, or one occurs in text1 |
| MemoryRetriever.EmptyQueryMatchesEverything | backend/memory/memory_retriever.py:293-294 | the empty query occurs in every text, so it scores every entry at least 2.0 |
| MemoryRetriever.Ranked | backend/memory/memory_retriever.py:55-69 | the result holds only entries with a positive score, ordered by score highest first, min(limit, hits) of them, all hits when the limit allows, and no hit left out scores above a kept entry |
| MemoryRetriever.Hits | backend/memory/memory_retriever.py:55-65 | an entry is a hit exactly when it is stored and scores above zero |
| MemoryRetriever.CutKeepsTop | backend/memory/memory_retriever.py:68-69 | cutting a list sorted by score (highest first) keeps the top scores: nothing of the input left out scores above anything kept |
| MemoryRetriever.SearchQuestions | backend/memory/memory_retriever.py:34-69 | only stored questions that score above zero are returned, exactly min(limit, number of scoring questions) of them, ordered by score highest first, and no stored question left out scores above one returned |
| MemoryRetriever.SearchExplanations | backend/memory/memory_retriever.py:71-103 | only stored explanations that score above zero are returned, exactly min(limit, number of scoring explanations) of them, ordered by score highest first, and no stored explanation left out scores above one returned |
| MemoryRetriever.SearchDecisions | backend/memory/memory_retriever.py:105-137 | only stored design decisions that score above zero are returned, exactly min(limit, number of scoring decisions) of them, ordered by score highest first, and no stored decision left out scores above one returned |
| MemoryRetriever.RankedKeepsAll | backend/memory/memory_retriever.py:55-69 | when every entry scores and the limit is large enough, all entries come back |
| MemoryRetriever.EmptyQueryFindsAllQuestions | backend/memory/memory_retriever.py:34-69 | the empty query returns every stored question when the limit allows |
| MemoryRetriever.ChangeContextsForFile | backend/memory/memory_retriever.py:139-162 | only contexts whose path contains the file path, or is contained in it, are returned, newest first, exactly min(limit, number of matching contexts) of them, and no matching context left out is newer than one returned |
| MemoryRetriever.NewestOfFiltered | backend/memory/memory_retriever.py:154-162 | the newest-first cut of the filtered items holds only kept items, and no kept item left out is newer than one returned |
| MemoryRetriever.FindRelatedContext | backend/memory/memory_retriever.py:164-189 | each kind is that kind's search with limit 3, the change contexts are the file's three newest when the path is non-empty and none otherwise |
| MemoryRetriever.RelatedContextIsTopThree | backend/memory/memory_retriever.py:164-189 | per kind, min(3, number of scoring entries) entries, all of them scoring, with no question left out scoring above one returned; for a non-empty path, min(3, matches) of the file's change contexts, none left out newer than one returned |
| MemoryRetriever.MemorySummary | backend/memory/memory_retriever.py:191-213 | the counts are the category sizes, and each of the four recent lists (questions, explanations, decisions, changes) holds min(3, size) entries drawn from its own category, newest first, with no entry left out newer than one kept |
| MemoryRetriever.Cut | backend/memory/memory_retriever.py:234 | a rendered line is its lead, the first 100 characters of the text, then "..." |
| MemoryRetriever.Section | backend/memory/memory_retriever.py:230-234 | a section is absent exactly for an empty category, else its header and two lines for each of the first two entries |
| MemoryRetriever.ResponseLines | backend/memory/memory_retriever.py:228-252 | the line count is the sum of the four section sizes, and the first line never starts with 'N' |
| MemoryRetriever.FormatMemoryResponse | backend/memory/memory_retriever.py:215-257 | the text is "No related memory found." exactly when all four categories are empty |
| MemoryRetriever.NoLinesIff | backend/memory/memory_retriever.py:254-255 | there are no lines exactly when all categories are empty |
| Retriever.FileTokenAt | backend/pathway_engine/query/retriever.py:70 | a token found at a position is the text there, has the `name.ext` shape, and is bounded by word boundaries on both sides |
| Retriever.FileTokensShape | backend/pathway_engine/query/retriever.py:70-71 | every token `findall` yields has the `name.ext` shape (exactly one dot, no slash) and occurs in the question |
| Retriever.SlashTestRedundant | backend/pathway_engine/query/retriever.py:75 | the "no slash" part of the exclusion filter never removes a token |
| Retriever.LoopbackExclusionUnused | backend/pathway_engine/query/retriever.py:74 | no token can equal "127.0.0.1", so that entry of the exclusion set never applies |
| Retriever.KeywordAt | backend/pathway_engine/query/retriever.py:81-82 | a keyword hit is one of readme, license, makefile, dockerfile, package in any letter case, as a whole word |
| Retriever.GuessName | backend/pathway_engine/query/retriever.py:85-88 | "readme" in any case becomes "README.md"; any other keyword becomes its upper-case form |
| Retriever.UpperOfLower | backend/pathway_engine/query/retriever.py:85 | upper-casing the lower-cased keyword is the same as upper-casing the word found |
| Retriever.ExtractFilename | backend/pathway_engine/query/retriever.py:62-90 | the first non-excluded token wins; failing that the first whole-word keyword, turned into a name; failing both, nothing |
| Retriever.ExtractedTokenShape | backend/pathway_engine/query/retriever.py:70-78 | a detected file name has the `name.ext` shape, is not excluded, and occurs in the question |
| Retriever.NoFilenameIff | backend/pathway_engine/query/retriever.py:77-90 | nothing is detected exactly when no token survives the exclusions and no keyword occurs anywhere |
| Retriever.RemoveAll | backend/pathway_engine/query/retriever.py:115 | removing ".md" never lengthens the target and leaves a target without ".md" unchanged |
| Retriever.FilterByFilename | backend/pathway_engine/query/retriever.py:92-118 | the kept results are exactly the results whose text mentions the target, in their original order |
| Retriever.MentionsIff | backend/pathway_engine/query/retriever.py:112-115 | the quoted forms add nothing: a text mentions the target exactly when it contains the target or the target with ".md" removed |
| Retriever.PlainTargetMentioned | backend/pathway_engine/query/retriever.py:112-115 | for a target without ".md", a mention is exactly an occurrence of the lower-cased target |
| Retriever.Retrieve | backend/pathway_engine/query/retriever.py:28-60 | without a detected name the client's k results; with one, 4k are fetched and at most k returned, all mentioning the name when any of the 4k does, else the first k of the 4k |
| ContextBuilder.LazyLine | backend/pathway_engine/query/context_builder.py:64-66 | the lazy group, when it matches, is a non-empty piece of one line of the text; it fails exactly when only line breaks follow |
| ContextBuilder.MarkerAt | backend/pathway_engine/query/context_builder.py:64 | a "# File:" capture is a non-empty piece of one line |
| ContextBuilder.FilePathAt | backend/pathway_engine/query/context_builder.py:65 | a "File path:" capture is a non-empty piece of one line |
| ContextBuilder.SourceAt | backend/pathway_engine/query/context_builder.py:66 | a "Source:" capture is a non-empty piece of one line |
| ContextBuilder.ExtensionPathAt | backend/pathway_engine/query/context_builder.py:67 | an extension capture is a piece of one line ending in a dot and one of the listed extensions |
| ContextBuilder.ExtractFilePath | backend/pathway_engine/query/context_builder.py:55-75 | the four patterns (path marker, `file_path` key, `source` key, bare path with an extension) are tried in order on the first 200 characters; the first that matches, including the fourth when the other three fail, gives its stripped capture; none matching gives nothing |
| ContextBuilder.ExtractedPathShape | backend/pathway_engine/query/context_builder.py:70-73 | an extracted path lies on one line within the first 200 characters and has no surrounding whitespace |
| ContextBuilder.PathFromWindowOnly | backend/pathway_engine/query/context_builder.py:71 | two texts that agree on their first 200 characters yield the same path |
| ContextBuilder.DocPath | backend/pathway_engine/query/context_builder.py:44-47 | the shown path is never empty: the extracted path, or "Source #i" when there is none or it is empty |
| ContextBuilder.Blocks | backend/pathway_engine/query/context_builder.py:39-51 | each snippet contributes a numbered heading and then its fenced text |
| ContextBuilder.ContextParts | backend/pathway_engine/query/context_builder.py:37-51 | the header, then heading and fenced stripped text for each snippet, numbered from 1 |
| ContextBuilder.BuildPromptContext | backend/pathway_engine/query/context_builder.py:26-53 | no snippets give the empty string; otherwise the parts joined by line breaks, starting with the header |
| ContextBuilder.EmptyContextIff | backend/pathway_engine/query/context_builder.py:34-35 | the context is empty exactly when there are no snippets |
| ContextBuilder.EverySnippetShown | backend/pathway_engine/query/context_builder.py:39-53 | every snippet's heading and fenced text occur in the context |
| VersionTracker.GetVersion | backend/pathway_engine/state/version_tracker.py:5-6 | a fresh tracker has no version |
| VersionTracker.Update | backend/pathway_engine/state/version_tracker.py:8-12 | afterwards the version is the content's hash; the result says whether it differs from the previous version |
| VersionTracker.FirstUpdateChanges | backend/pathway_engine/state/version_tracker.py:10 | the first update always reports a change |
| VersionTracker.RepeatedUpdateUnchanged | backend/pathway_engine/state/version_tracker.py:8-12 | repeating an update reports no change and leaves the tracker as it was |
| VersionTracker.ChangeIffHashDiffers | backend/pathway_engine/state/version_tracker.py:9-10 | after content a, content b reports a change exactly when their hashes differ (with an injective hash, when the contents differ) |
| LiveIndex.Lookup | backend/pathway_engine/indexing/live_index.py:3-4 | a key has a content exactly when it is stored, and the content is the one stored with it |
| LiveIndex.Put | backend/pathway_engine/indexing/live_index.py:7 | storing keeps key order (appending a new key), makes the key yield the content, and leaves other entries as they were |
| LiveIndex.PutFrame | backend/pathway_engine/indexing/live_index.py:7 | storing under one key leaves every other key's content unchanged |
| LiveIndex.PutKeepsValid | backend/pathway_engine/indexing/live_index.py:7 | storing keeps the keys distinct |
| LiveIndex.Update | backend/pathway_engine/indexing/live_index.py:6-7 | the content's hash now yields the content; every other hash yields what it did |
| LiveIndex.All | backend/pathway_engine/indexing/live_index.py:9-10 | the stored contents in insertion order, one per entry |
| LiveIndex.UpdatedContentListed | backend/pathway_engine/indexing/live_index.py:6-10 | after an update the content is among `all()` |
| LiveIndex.UpdateIdempotent | backend/pathway_engine/indexing/live_index.py:6-7 | updating twice with the same content gives the same index as once |
| LiveIndex.OneContentPerKey | backend/pathway_engine/indexing/live_index.py:9-10 | `all()` has one content per distinct stored hash |
| LiveIndex.UpdatesKeepValid | backend/pathway_engine/indexing/live_index.py:3-7 | from a fresh index, any sequence of updates keeps the keys distinct |
| SourcePatterns.FindAllCaptures | backend/change_intelligence/change_detector.py:205 | every capture `findall` yields is the capture of a match at some position |
| SourcePatterns.DefNames | backend/change_intelligence/change_detector.py:201-206 | every name `findall` of `^\s*def\s+(\w+)\s*\(` returns is the capture of a def header at some position: non-empty and made of word characters |
| SourcePatterns.ClassNames | backend/change_intelligence/change_detector.py:208-213 | every name `findall` of `^\s*class\s+(\w+)` returns is the capture of a class header at some position: non-empty and made of word characters |
| SourcePatterns.CloseParenColon | backend/change_intelligence/breaking_change.py:173 | the lazy `(.*?)\)\s*:` stops at the first ")" after the start that is followed by optional blanks and ":", and there is none when no such ")" exists |
| SourcePatterns.Search | backend/pathway_engine/query/retriever.py:82 | `re.search` finds the leftmost position that matches, and reports no match only when no position matches |
| SourcePatterns.DefAt | backend/change_intelligence/change_detector.py:204 | a `def` header match starts a line and captures a non-empty run of word characters |
| SourcePatterns.PublicDefAt | backend/change_intelligence/breaking_change.py:276 | a public `def` capture starts with a letter and has at least two characters |
| SourcePatterns.ClassAt | backend/change_intelligence/change_detector.py:211 | a `class` header match starts a line and captures a non-empty run of word characters |
| SourcePatterns.PublicClassAt | backend/change_intelligence/impact_analysis.py:151 | a public `class` capture starts with a letter and has at least two characters |
| SourcePatterns.ImportAt | backend/change_intelligence/change_detector.py:220 | an `import` match starts at a line start with the word import |
| SourcePatterns.FromImportAt | backend/change_intelligence/change_detector.py:221 | a `from ... import` match starts at a line start with the word from |
| SourcePatterns.ImportTargets | backend/change_intelligence/change_detector.py:215-226 | the import set holds each target of either form exactly once |
| Text.Lower | backend/pathway_engine/query/retriever.py:100 | `lower()` maps every character and keeps the length |
| Text.StripEmptyIffBlank | backend/change_intelligence/breaking_change.py:182 | a stripped string is empty exactly when the string is all whitespace |
| Text.StripHasNoOuterSpace | backend/pathway_engine/query/context_builder.py:73 | a stripped string neither starts nor ends with whitespace |
| Text.SplitOnJoin | backend/change_intelligence/breaking_change.py:170 | splitting on a separator and joining with it gives the string back |
| Text.ParseNatToString | backend/pathway_engine/query/context_builder.py:47 | the decimal text of a number reads back as that number |
| Text.Take | backend/pathway_engine/query/retriever.py:44 | slicing to k keeps the first min(k, length) items |
| Text.Filter | backend/agent/tools.py:6 | a comprehension with a condition keeps exactly the items that satisfy it |
| Text.Dedup | backend/change_intelligence/change_detector.py:225 | a set built from a list holds the same items, each once |
| Text.JoinContainsParts | backend/pathway_engine/query/context_builder.py:53 | every part occurs in the joined text |

## Left out

- Persistence of the memory store (`_ensure_storage_file`, `_load_memory`, `_save_memory`, the JSON file and its directory): file I/O. The store is a value, and every `store_*` returns the new value.
- Clock reads (`datetime.now()`): every operation that stamps an entry takes the timestamp string as a parameter.
- `get_default_store` and `retrieve_related_memory`: a process-wide singleton and a wrapper around it, with no logic of their own.
- The `get_all_*` accessors of the memory store: each returns one category list as it is, which is a field of the model's value.
- The module-level wrappers `detect_changes`, `detect_breaking_changes` and `analyze_impact`: each constructs the class and calls the method, and the method is modelled.
- Logging with `print` in the retriever, and `_debug_results`: console output only.
- `build_prompt_context_with_relevance`: it formats floating-point scores.
- The vector-store client: a network call. It is the parameter `client` of `Retriever.Retrieve`.
- SHA-256 (`content_hash`): a function parameter of the version tracker and the live index. Collisions are not excluded; `VersionTracker.ChangeIffHashDiffers` states the effect of an injective hash separately.
- The Python parser behind `ast.parse`/`ast.walk`: it is an oracle parameter. Only what the detector does with its answer, and the regex fallback, are modelled.
- `difflib.unified_diff`'s choice of hunks: the diff is any edit script that reproduces both sides and keeps equal inputs whole. No property depends on which script difflib picks, and none claims minimality.
- Unicode character classes, Unicode case mapping and `str.splitlines`' rarer separators: `\s`, `\w`, `lower()` and `upper()` are the ASCII ones, and lines split on `\n`, `\r\n` and `\r`.
- The order in which Python iterates a `set`: names are taken in first-occurrence order, and contracts speak only of membership, distinctness and counts.
- ChangeDetector.CompareMultipleFiles: states that `file_details` has exactly the changed paths as keys, but not which report is stored under each; it is the report of the last changed entry with that path.
- `ChangeIntelligence.AnalyzeCodeChanges`: the combined record has the 15 fields the source returns. It omits `modified_lines` and the raw event list, as the source does.
- Ranking.SortDesc: proves a permutation that is ordered by the key. Stability among equal keys, which Python's `sorted` guarantees, is not proved.
- MemoryRetriever.Ranked: states which scores are kept (no hit left out scores above a kept one), but among entries with equal scores neither their order nor which of them survive the limit is stated, for the same reason as `Ranking.SortDesc`.
- MemoryStore.NewestFirst: states that no item left out is newer than one kept, but among items with equal timestamps it does not state that the result is exactly the first `limit` items of the stable sort.
- MemoryStore.RecentItems: applies `NewestFirst` to each category, so the same gap holds: among entries with equal timestamps, which survive the limit and in what order is not stated.
- MemoryRetriever.MemorySummary: its recent lists come from `RecentItems`, so ties among equal timestamps are left open in the same way.
- MemoryRetriever.FindRelatedContext: its lists come from the searches with limit 3, so ties among equal scores or equal timestamps are left open in the same way.
- MemoryRetriever.ChangeContextsForFile: among matching contexts with equal timestamps, which are dropped by the limit and in what order is not stated.
- ImpactAnalysis.FindPotentialDependents: its own contract states only a bound. The fact that it always returns nothing is proved at report level by `ImpactAnalysis.AffectedModulesAlwaysEmpty`.
- MemoryRetriever.SearchQuestions: among questions with equal scores, their order and which of them survive the limit are not stated (as for `Ranked`).
- MemoryRetriever.SearchExplanations: among explanations with equal scores, their order and which of them survive the limit are not stated (as for `Ranked`).
- MemoryRetriever.SearchDecisions: among decisions with equal scores, their order and which of them survive the limit are not stated (as for `Ranked`).

## Findings

| source | as written | input that shows it | evidently intended | confidence | as-written member | corrected member |
|---|---|---|---|---|---|---|
| backend/agent/planner.py:16 | `if "summary" or "summarize" in query.lower()` is always true, because the non-empty literal "summary" is truthy, so every query with a quality other than "limited" gets the summarize plan | query "what changed" with context quality "good" gives the "summarize" plan instead of "explain_change" | `"summary" in q or "summarize" in q`, so that the later change, breaking and impact branches can be reached | not executed | Planner.PlanAsWritten (shown by Planner.ChangeQuestionMisrouted) | Planner.IntendedPlan |

A second, harmless oddity in the retriever: the exclusion set lists "127.0.0.1". A `name.ext` token has exactly one dot, so it can never equal that entry, which is therefore dead (`Retriever.LoopbackExclusionUnused`). Nothing a user sees depends on it, so it is not listed as a finding.
