/** `ChangeDetector` (backend/change_intelligence/change_detector.py): counts
    the added and removed lines of a line diff between two revisions of a file
    and explains them in a reason string and a summary string. */
module ChangeDetector {
  import opened Wrappers
  import opened Text
  import opened LineDiff
  import opened SourcePatterns

  /** The dictionary `detect_changes` returns. */
  datatype ChangeReport = ChangeReport(
    changed: bool,
    filesChanged: seq<string>,
    reason: string,
    changeSummary: string,
    addedLines: nat,
    removedLines: nat,
    modifiedLines: nat)

  const NoChangeReason := "No changes detected"
  const IdenticalSummary := "The file content is identical."
  const Unchanged := ChangeReport(false, [], NoChangeReason, IdenticalSummary, 0, 0, 0)

  // ---------------------------------------------------------------------------
  // Reading the diff listing
  // ---------------------------------------------------------------------------

  /** A body line of `unified_diff`: a one-character tag, then the line with its
      line break. */
  function DiffLine(e: Edit): string {
    match e
    case Keep(l) => " " + l
    case Insert(l) => "+" + l
    case Delete(l) => "-" + l
  }

  function DiffBody(script: seq<Edit>): (r: seq<string>)
    ensures |r| == |script|
    ensures forall k | 0 <= k < |r| :: r[k] == DiffLine(script[k])
  {
    seq(|script|, k requires 0 <= k < |script| => DiffLine(script[k]))
  }

  datatype LineRole = Added | Removed | Skipped

  /** How `detect_changes` treats one line of the listing: lines starting with
      `---`, `+++` or `@@` are dropped as headers, then `+` counts as added and
      `-` as removed. */
  function Role(line: string): LineRole {
    if StartsWith(line, "---") || StartsWith(line, "+++") || StartsWith(line, "@@") then Skipped
    else if StartsWith(line, "+") then Added
    else if StartsWith(line, "-") then Removed
    else Skipped
  }

  /** The file and hunk headers `unified_diff` adds around the body are never
      counted, whatever the path; the model therefore reads the body alone. */
  lemma HeadersAreSkipped(path: string, hunk: string)
    ensures Role("--- " + path + " (old)") == Skipped
    ensures Role("+++ " + path + " (new)") == Skipped
    ensures Role("@@" + hunk) == Skipped
  {
    assert ("--- " + path + " (old)")[..3] == "---";
    assert ("+++ " + path + " (new)")[..3] == "+++";
    assert ("@@" + hunk)[..2] == "@@";
  }

  /** Kept lines are never counted; an inserted line is counted unless its text
      starts with `++`, a deleted one unless its text starts with `--`. */
  lemma RoleOfDiffLine(e: Edit)
    ensures Role(DiffLine(e)) == Added <==> e.Insert? && !StartsWith(e.line, "++")
    ensures Role(DiffLine(e)) == Removed <==> e.Delete? && !StartsWith(e.line, "--")
  {
    var d := DiffLine(e);
    assert d[0] == (if e.Keep? then ' ' else if e.Insert? then '+' else '-');
    assert d[1..] == e.line;
    if |d| >= 3 {
      assert d[..3] == [d[0]] + d[1..3];
      assert d[1..3] == e.line[..2];
    }
    if |e.line| >= 2 {
      assert StartsWith(e.line, "++") <==> e.line[..2] == "++";
    }
  }

  function CountRole(lines: seq<string>, role: LineRole): nat
    decreases |lines|
  {
    if |lines| == 0 then 0
    else CountRole(lines[..|lines| - 1], role) + (if Role(lines[|lines| - 1]) == role then 1 else 0)
  }

  /** `context_lines`: the text of every counted line, tag dropped and stripped. */
  function ContextLines(lines: seq<string>): (r: seq<string>)
    ensures |r| == CountRole(lines, Added) + CountRole(lines, Removed)
    decreases |lines|
  {
    if |lines| == 0 then []
    else
      var last := lines[|lines| - 1];
      ContextLines(lines[..|lines| - 1]) + (if Role(last) != Skipped then [Strip(last[1..])] else [])
  }

  /** The counting loop of `detect_changes`. */
  method ScanDiff(lines: seq<string>) returns (added: nat, removed: nat, context: seq<string>)
    ensures added == CountRole(lines, Added)
    ensures removed == CountRole(lines, Removed)
    ensures context == ContextLines(lines)
  {
    added, removed, context := 0, 0, [];
    var i := 0;
    while i < |lines|
      invariant 0 <= i <= |lines|
      invariant added == CountRole(lines[..i], Added)
      invariant removed == CountRole(lines[..i], Removed)
      invariant context == ContextLines(lines[..i])
    {
      var line := lines[i];
      assert lines[..i + 1][..i] == lines[..i] && lines[..i + 1][i] == line;
      var role := Role(line);
      if role == Added {
        added := added + 1;
        context := context + [Strip(line[1..])];
      } else if role == Removed {
        removed := removed + 1;
        context := context + [Strip(line[1..])];
      }
      i := i + 1;
    }
    assert lines[..i] == lines;
  }

  /** Counts of a script taken edit by edit. */
  function InsertedCounted(script: seq<Edit>): nat
    decreases |script|
  {
    if |script| == 0 then 0
    else
      var last := script[|script| - 1];
      InsertedCounted(script[..|script| - 1]) + (if last.Insert? && !StartsWith(last.line, "++") then 1 else 0)
  }

  function DeletedCounted(script: seq<Edit>): nat
    decreases |script|
  {
    if |script| == 0 then 0
    else
      var last := script[|script| - 1];
      DeletedCounted(script[..|script| - 1]) + (if last.Delete? && !StartsWith(last.line, "--") then 1 else 0)
  }

  /** `added_lines` counts exactly the insertions whose text does not start with
      `++`, and `removed_lines` the deletions whose text does not start with `--`. */
  lemma {:induction false} CountsOfScript(script: seq<Edit>)
    ensures CountRole(DiffBody(script), Added) == InsertedCounted(script)
    ensures CountRole(DiffBody(script), Removed) == DeletedCounted(script)
    decreases |script|
  {
    if |script| > 0 {
      var n := |script| - 1;
      CountsOfScript(script[..n]);
      RoleOfDiffLine(script[n]);
      assert DiffBody(script)[..n] == DiffBody(script[..n]);
    }
  }

  // ---------------------------------------------------------------------------
  // Reason
  // ---------------------------------------------------------------------------

  /** At most `n` of a set of names (Python's `list(names)[:n]`, whose order is
      unspecified; the model shows the first ones). */
  function Shown(names: seq<string>, n: nat): (r: seq<string>)
    ensures |r| == Min(n, |names|)
    ensures forall x | x in r :: x in names
    ensures Distinct(names) ==> Distinct(r)
  {
    Take(names, n)
  }

  /** "Added 2 function(s): f, g" and its variants. */
  function CountedNamesClause(verb: string, noun: string, names: seq<string>, n: nat): (r: string)
    ensures |verb| > 0 ==> |r| > 0 && r[0] == verb[0]
  {
    verb + (" " + NatToString(|names|) + " " + noun + ": " + Join(Shown(names, n), ", "))
  }

  /** "Added imports: os, re" and its variant. */
  function ImportsClause(verb: string, names: seq<string>): (r: string)
    ensures |verb| > 0 ==> |r| > 0 && r[0] == verb[0]
  {
    verb + (" imports: " + Join(Shown(names, 3), ", "))
  }

  /** A function, import or class clause: each starts with "Added" or "Removed". */
  predicate IsStructural(c: string) {
    |c| > 0 && (c[0] == 'A' || c[0] == 'R')
  }

  /** The clauses about functions, imports and classes that appeared or
      vanished, in the order the source checks them. */
  function StructuralClauses(oldContent: string, newContent: string): (r: seq<string>)
    ensures forall c | c in r :: IsStructural(c)
  {
    var oldFunctions := DefNames(oldContent);
    var newFunctions := DefNames(newContent);
    var oldImports := ImportTargets(oldContent);
    var newImports := ImportTargets(newContent);
    var oldClasses := ClassNames(oldContent);
    var newClasses := ClassNames(newContent);
    ClausesFor(
      Dedup(Minus(newFunctions, oldFunctions)), Dedup(Minus(oldFunctions, newFunctions)),
      Elems(oldImports) != Elems(newImports), Minus(newImports, oldImports), Minus(oldImports, newImports),
      Dedup(Minus(newClasses, oldClasses)), Dedup(Minus(oldClasses, newClasses)))
  }

  function ClausesFor(
    addedFunctions: seq<string>, removedFunctions: seq<string>,
    importsChanged: bool, addedImports: seq<string>, removedImports: seq<string>,
    addedClasses: seq<string>, removedClasses: seq<string>): (r: seq<string>)
    ensures forall c | c in r :: IsStructural(c)
  {
    var a := When(|addedFunctions| > 0, CountedNamesClause("Added", "function(s)", addedFunctions, 3));
    var b := When(|removedFunctions| > 0, CountedNamesClause("Removed", "function(s)", removedFunctions, 3));
    var c := When(importsChanged && |addedImports| > 0, ImportsClause("Added", addedImports));
    var d := When(importsChanged && |removedImports| > 0, ImportsClause("Removed", removedImports));
    var e := When(|addedClasses| > 0, CountedNamesClause("Added", "class(es)", addedClasses, 2));
    var f := When(|removedClasses| > 0, CountedNamesClause("Removed", "class(es)", removedClasses, 2));
    VerbInitials();
    StructuralAppend(a, b);
    StructuralAppend(a + b, c);
    StructuralAppend(a + b + c, d);
    StructuralAppend(a + b + c + d, e);
    StructuralAppend(a + b + c + d + e, f);
    a + b + c + d + e + f
  }

  lemma VerbInitials()
    ensures |"Added"| > 0 && "Added"[0] == 'A'
    ensures |"Removed"| > 0 && "Removed"[0] == 'R'
  {
  }

  lemma StructuralAppend(x: seq<string>, y: seq<string>)
    requires forall c | c in x :: IsStructural(c)
    requires forall c | c in y :: IsStructural(c)
    ensures forall c | c in x + y :: IsStructural(c)
  {
  }

  /** The net-line statement used when no structural clause applies. */
  function NetClause(added: nat, removed: nat): (r: string)
    ensures StartsWith(r, "Code ")
  {
    var r := "Code " + (
      if added > removed then "expanded: " + NatToString(added - removed) + " net new lines"
      else if removed > added then "reduced: " + NatToString(removed - added) + " net removed lines"
      else "modified: " + NatToString(added) + " lines added, " + NatToString(removed) + " lines removed");
    assert r[..5] == "Code ";
    r
  }

  const LogicClause := "Logic" + " flow or control structures were modified"

  const LogicKeywords: seq<string> := ["if", "elif", "else", "for", "while", "return", "raise", "except"]

  /** Some keyword occurs, as a substring, in the lower-cased, space-joined
      changed lines. */
  predicate MentionsLogic(context: seq<string>) {
    var text := Lower(Join(context, " "));
    exists k | 0 <= k < |LogicKeywords| :: Contains(text, LogicKeywords[k])
  }

  function ReasonClauses(oldContent: string, newContent: string, added: nat, removed: nat, context: seq<string>): seq<string> {
    AssembleClauses(StructuralClauses(oldContent, newContent), NetClause(added, removed), MentionsLogic(context))
  }

  /** The structural clauses, else the net-line clause, then the logic clause. */
  function AssembleClauses(structural: seq<string>, net: string, logic: bool): seq<string> {
    structural + When(|structural| == 0, net) + When(logic, LogicClause)
  }

  /** `_generate_reason`. */
  function GenerateReason(oldContent: string, newContent: string, added: nat, removed: nat, context: seq<string>): (r: string)
    ensures r != ""
    ensures forall c | c in ReasonClauses(oldContent, newContent, added, removed, context) :: Contains(r, c)
  {
    var clauses := ReasonClauses(oldContent, newContent, added, removed, context);
    AssembledClauses(StructuralClauses(oldContent, newContent), NetClause(added, removed), MentionsLogic(context));
    JoinStartsWithFirst(clauses, "; ");
    JoinContainsEvery(clauses, "; ");
    if |clauses| > 0 then Join(clauses, "; ") else "Content changed (no specific patterns detected)"
  }

  /** What the assembly guarantees whatever the structural clauses are. */
  lemma AssembledClauses(structural: seq<string>, net: string, logic: bool)
    requires forall c | c in structural :: IsStructural(c)
    requires StartsWith(net, "Code ")
    ensures var clauses := AssembleClauses(structural, net, logic);
      && |clauses| >= 1 && |clauses[0]| > 0
      && ((exists c | c in clauses :: StartsWith(c, "Code ")) <==> |structural| == 0)
      && (LogicClause in clauses <==> logic)
  {
    var clauses := AssembleClauses(structural, net, logic);
    assert LogicClause[0] == 'L' && !StartsWith(LogicClause, "Code ");
    if |structural| > 0 {
      assert clauses[0] == structural[0] && structural[0] in structural;
      forall c | c in clauses
        ensures !StartsWith(c, "Code ")
      {
        if c in structural {
          assert c[0] == 'A' || c[0] == 'R';
        }
      }
    } else {
      assert clauses[0] == net && net in clauses;
      assert net != LogicClause by {
        assert net[0] == 'C';
      }
    }
  }

  /** The "no specific patterns" fallback is unreachable: there is always a
      clause, and the reason is their join, never empty. */
  lemma ReasonNeverFallsBack(oldContent: string, newContent: string, added: nat, removed: nat, context: seq<string>)
    ensures var clauses := ReasonClauses(oldContent, newContent, added, removed, context);
      && |clauses| >= 1
      && GenerateReason(oldContent, newContent, added, removed, context) == Join(clauses, "; ")
      && GenerateReason(oldContent, newContent, added, removed, context) != ""
  {
    var clauses := ReasonClauses(oldContent, newContent, added, removed, context);
    AssembledClauses(StructuralClauses(oldContent, newContent), NetClause(added, removed), MentionsLogic(context));
    JoinStartsWithFirst(clauses, "; ");
  }

  /** The net-line clause (the only one starting with "Code ") is given exactly
      when no function, import or class clause fired. */
  lemma NetClauseIffNoStructural(oldContent: string, newContent: string, added: nat, removed: nat, context: seq<string>)
    ensures var clauses := ReasonClauses(oldContent, newContent, added, removed, context);
      (exists c | c in clauses :: StartsWith(c, "Code ")) <==> |StructuralClauses(oldContent, newContent)| == 0
  {
    AssembledClauses(StructuralClauses(oldContent, newContent), NetClause(added, removed), MentionsLogic(context));
  }

  /** The logic clause is given exactly when a control-flow keyword occurs in
      the changed lines. */
  lemma LogicClauseIff(oldContent: string, newContent: string, added: nat, removed: nat, context: seq<string>)
    ensures LogicClause in ReasonClauses(oldContent, newContent, added, removed, context) <==> MentionsLogic(context)
  {
    AssembledClauses(StructuralClauses(oldContent, newContent), NetClause(added, removed), MentionsLogic(context));
  }

  /** Keywords are matched as substrings, not words: "format" counts because it
      contains "for". */
  lemma SubstringKeywordMatch()
    ensures MentionsLogic(["format"])
  {
    var text := Lower(Join(["format"], " "));
    assert text == "format";
    assert LogicKeywords[3] == "for";
    assert OccursAt(text, "for", 0);
  }

  // ---------------------------------------------------------------------------
  // Summary
  // ---------------------------------------------------------------------------

  /** A sample line cut to 80 characters plus "..." when longer. */
  function Shorten(line: string): (r: string)
    ensures |r| <= 83
    ensures |line| <= 80 ==> r == line
    ensures |line| > 80 ==> |r| == 83 && r[..80] == line[..80] && r[80..] == "..."
  {
    if |line| > 80 then line[..80] + "..." else line
  }

  const BulletPrefix := "  - "

  /** The bullets for the non-blank sample lines, in order. */
  function SampleBullets(lines: seq<string>): (r: seq<string>)
    ensures |r| <= |lines|
    ensures forall b | b in r :: |b| > 0 && b[0] == ' ' && exists l | l in lines :: Strip(l) != "" && b == BulletPrefix + Shorten(l)
    decreases |lines|
  {
    if |lines| == 0 then []
    else
      (if Strip(lines[0]) != "" then [BulletPrefix + Shorten(lines[0])] else []) + SampleBullets(lines[1..])
  }

  function CountsSentence(added: nat, removed: nat): (r: string)
    ensures |r| > 0 && IsDigit(r[0])
  {
    NatToString(added) + (" line(s) added, " + NatToString(removed) + " line(s) removed.")
  }

  function Headline(filePath: string): (r: string)
    ensures |r| > 0 && r[0] == 'F'
  {
    "File " + (filePath + " was modified.")
  }

  const SampleIntro := "Sample" + " changes include:"

  function SummaryParts(filePath: string, added: nat, removed: nat, samples: seq<string>): seq<string> {
    [Headline(filePath)]
    + When(added > 0 || removed > 0, CountsSentence(added, removed))
    + SampleSection(samples)
  }

  /** The introduction and bullets, present when there are sample lines. */
  function SampleSection(samples: seq<string>): (r: seq<string>)
    ensures forall p | p in r :: |p| > 0 && (p[0] == 'S' || p[0] == ' ')
    ensures forall p | p in r && p[0] == ' ' :: p in SampleBullets(Take(samples, 3))
  {
    assert SampleIntro[0] == 'S';
    if |samples| > 0 then [SampleIntro] + SampleBullets(Take(samples, 3)) else []
  }

  /** `_generate_summary`. */
  function GenerateSummary(filePath: string, added: nat, removed: nat, samples: seq<string>): (r: string)
    ensures Contains(r, Headline(filePath))
    ensures added > 0 || removed > 0 ==> Contains(r, CountsSentence(added, removed))
    ensures forall p | p in SampleSection(samples) :: Contains(r, p)
  {
    var parts := SummaryParts(filePath, added, removed, samples);
    JoinContainsEvery(parts, " ");
    assert parts[0] == Headline(filePath);
    Join(parts, " ")
  }

  /** The summary opens with the headline naming the file. */
  lemma SummaryOpensWithHeadline(filePath: string, added: nat, removed: nat, samples: seq<string>)
    ensures StartsWith(GenerateSummary(filePath, added, removed, samples), Headline(filePath))
  {
    JoinStartsWithFirst(SummaryParts(filePath, added, removed, samples), " ");
  }

  /** The counts sentence (the only part starting with a digit) is present
      exactly when some line was counted. */
  lemma CountsSentenceIff(filePath: string, added: nat, removed: nat, samples: seq<string>)
    ensures (exists p | p in SummaryParts(filePath, added, removed, samples) :: |p| > 0 && IsDigit(p[0]))
      <==> added > 0 || removed > 0
  {
    var parts := SummaryParts(filePath, added, removed, samples);
    if added > 0 || removed > 0 {
      assert CountsSentence(added, removed) in parts;
    } else {
      var section := SampleSection(samples);
      assert parts == [Headline(filePath)] + section;
      forall p | p in parts
        ensures !(|p| > 0 && IsDigit(p[0]))
      {
        if p !in section {
          assert p == Headline(filePath);
        }
      }
    }
  }

  /** At most three bullets are shown, each a non-blank line among the first
      three samples, cut to 80 characters plus "...". */
  lemma BulletsFromFirstSamples(filePath: string, added: nat, removed: nat, samples: seq<string>)
    ensures var bullets := SampleBullets(Take(samples, 3));
      && |bullets| <= 3
      && (forall p | p in SummaryParts(filePath, added, removed, samples) && |p| > 0 && p[0] == ' ' :: p in bullets)
      && (forall b | b in bullets :: exists l | l in Take(samples, 3) :: Strip(l) != "" && b == BulletPrefix + Shorten(l))
  {
    var counts := CountsSentence(added, removed);
    assert counts[0] != ' ' by {
      assert IsDigit(counts[0]);
    }
  }

  // ---------------------------------------------------------------------------
  // detect_changes
  // ---------------------------------------------------------------------------

  /** `detect_changes`: the diff script comes from `differ` (difflib). */
  function DetectChanges(oldContent: string, newContent: string, filePath: string, differ: Differ): (r: ChangeReport)
    requires IsLineDiffer(differ)
    ensures r.changed <==> oldContent != newContent
    ensures !r.changed ==> r == Unchanged
    ensures r.changed ==> r.filesChanged == [filePath] && r.modifiedLines == r.addedLines + r.removedLines
    ensures r.changed ==> StartsWith(r.changeSummary, Headline(filePath))
    ensures r.reason != ""
    ensures r.changed ==>
      var script := differ(SplitLinesKeep(oldContent), SplitLinesKeep(newContent));
      r.addedLines == InsertedCounted(script) && r.removedLines == DeletedCounted(script)
  {
    var oldLines := SplitLinesKeep(oldContent);
    var newLines := SplitLinesKeep(newContent);
    var script := differ(oldLines, newLines);
    DiffHasChangeIff(script, oldLines, newLines);
    CountsOfScript(script);
    SplitLinesInjective(oldContent, newContent);
    if !HasChange(script) then Unchanged
    else
      var body := DiffBody(script);
      var added := CountRole(body, Added);
      var removed := CountRole(body, Removed);
      var context := ContextLines(body);
      ReasonNeverFallsBack(oldContent, newContent, added, removed, context);
      SummaryOpensWithHeadline(filePath, added, removed, Take(context, 5));
      ChangeReport(
        true,
        [filePath],
        GenerateReason(oldContent, newContent, added, removed, context),
        GenerateSummary(filePath, added, removed, Take(context, 5)),
        added,
        removed,
        removed + added)
  }

  /** A change whose every line is dropped by the header filter is reported as
      changed with nothing counted: here the new text's only line starts with "++". */
  lemma ChangedButNothingCounted(filePath: string, differ: Differ)
    requires IsLineDiffer(differ)
    ensures var r := DetectChanges("", "++x", filePath, differ);
      r.changed && r.addedLines == 0 && r.removedLines == 0
  {
    var newLines := SplitLinesKeep("++x");
    SingleLine();
    var script := differ([], newLines);
    assert IsDiffOf(script, [], newLines);
    OnlyInsertions(script);
    assert |script| == 1 && script[0] == Insert("++x");
    CountsOfScript(script);
    assert StartsWith("++x", "++");
    assert script[..0] == [];
  }

  lemma SingleLine()
    ensures SplitLinesKeep("++x") == ["++x"]
  {
    assert "++x"[1..] == "+x" && "+x"[1..] == "x";
    assert FirstLineLength("x") == 1;
    assert FirstLineLength("+x") == 2;
    assert FirstLineLength("++x") == 3;
    assert "++x"[..3] == "++x" && "++x"[3..] == "";
  }

  /** A script that reads no old lines only inserts. */
  lemma {:induction false} OnlyInsertions(script: seq<Edit>)
    requires OldSide(script) == []
    ensures |NewSide(script)| == |script|
    ensures forall k | 0 <= k < |script| :: script[k] == Insert(NewSide(script)[k])
    decreases |script|
  {
    if |script| > 0 {
      assert script[0].Insert?;
      OnlyInsertions(script[1..]);
      assert NewSide(script) == [script[0].line] + NewSide(script[1..]);
    }
  }

  // ---------------------------------------------------------------------------
  // compare_multiple_files
  // ---------------------------------------------------------------------------

  /** The `{"old": ..., "new": ...}` entry of one file; a missing side reads as "". */
  datatype FileVersions = FileVersions(before: Option<string>, after: Option<string>)

  datatype FileEntry = FileEntry(path: string, versions: FileVersions)

  /** The dictionary `compare_multiple_files` returns. */
  datatype MultiReport = MultiReport(
    changed: bool,
    filesChanged: seq<string>,
    reason: string,
    changeSummary: string,
    addedLines: nat,
    removedLines: nat,
    modifiedLines: nat,
    fileDetails: map<string, ChangeReport>)

  /** The report `detect_changes` gives one entry, a missing side read as "". */
  function FileReport(f: FileEntry, differ: Differ): (r: ChangeReport)
    requires IsLineDiffer(differ)
    ensures r.changed <==> Differs(f)
    ensures r.changed ==> r.filesChanged == [f.path]
    ensures r.reason != ""
  {
    DetectChanges(f.versions.before.GetOr(""), f.versions.after.GetOr(""), f.path, differ)
  }

  /** The two versions of the entry differ. */
  predicate Differs(f: FileEntry) {
    f.versions.before.GetOr("") != f.versions.after.GetOr("")
  }

  // Reference definitions over a prefix of the input, one file at a time.

  function ChangedPaths(files: seq<FileEntry>): seq<string>
    decreases |files|
  {
    if |files| == 0 then []
    else
      var last := files[|files| - 1];
      ChangedPaths(files[..|files| - 1]) + (if Differs(last) then [last.path] else [])
  }

  function TotalAdded(files: seq<FileEntry>, differ: Differ): nat
    requires IsLineDiffer(differ)
    decreases |files|
  {
    if |files| == 0 then 0
    else TotalAdded(files[..|files| - 1], differ) + FileReport(files[|files| - 1], differ).addedLines
  }

  function TotalRemoved(files: seq<FileEntry>, differ: Differ): nat
    requires IsLineDiffer(differ)
    decreases |files|
  {
    if |files| == 0 then 0
    else TotalRemoved(files[..|files| - 1], differ) + FileReport(files[|files| - 1], differ).removedLines
  }

  /** A path is listed as changed exactly when some entry with that path has
      two different versions. */
  lemma {:induction false} ChangedPathsIff(files: seq<FileEntry>, p: string)
    ensures p in ChangedPaths(files) <==> exists f | f in files :: f.path == p && Differs(f)
    decreases |files|
  {
    if |files| > 0 {
      var init := files[..|files| - 1];
      ChangedPathsIff(init, p);
      assert files == init + [files[|files| - 1]];
      assert forall f :: f in files <==> f in init || f == files[|files| - 1];
    }
  }

  /** `compare_multiple_files`: the per-file reports are aggregated in input order. */
  method CompareMultipleFiles(files: seq<FileEntry>, differ: Differ) returns (r: MultiReport)
    requires IsLineDiffer(differ)
    ensures r.filesChanged == ChangedPaths(files)
    ensures r.changed <==> exists f | f in files :: Differs(f)
    ensures r.addedLines == TotalAdded(files, differ)
    ensures r.removedLines == TotalRemoved(files, differ)
    ensures r.modifiedLines == r.addedLines + r.removedLines
    ensures forall p :: p in r.fileDetails <==> p in r.filesChanged
    ensures r.reason != ""
  {
    var changedFiles: seq<string> := [];
    var totalAdded: nat := 0;
    var totalRemoved: nat := 0;
    var reasons: seq<string> := [];
    var details: map<string, ChangeReport> := map[];
    var i := 0;
    while i < |files|
      invariant 0 <= i <= |files|
      invariant changedFiles == ChangedPaths(files[..i])
      invariant totalAdded == TotalAdded(files[..i], differ)
      invariant totalRemoved == TotalRemoved(files[..i], differ)
      invariant forall p :: p in details <==> p in changedFiles
      invariant forall x | x in reasons :: |x| > 0
    {
      assert files[..i + 1][..i] == files[..i];
      var f := files[i];
      var result := FileReport(f, differ);
      totalAdded := totalAdded + result.addedLines;
      totalRemoved := totalRemoved + result.removedLines;
      if result.changed {
        changedFiles := changedFiles + [f.path];
        reasons := reasons + [result.reason];
        details := details[result.filesChanged[0] := result];
      }
      i := i + 1;
    }
    assert files[..i] == files;
    if exists f | f in files :: Differs(f) {
      var f :| f in files && Differs(f);
      ChangedPathsIff(files, f.path);
    }
    if |changedFiles| > 0 {
      ChangedPathsIff(files, changedFiles[0]);
    }
    var unique := Dedup(reasons);
    var combined := Join(unique, "; ");
    if |unique| > 0 {
      JoinStartsWithFirst(unique, "; ");
      assert unique[0] in reasons;
    }
    r := MultiReport(
      |changedFiles| > 0,
      changedFiles,
      if combined != "" then combined else NoChangeReason,
      NatToString(|changedFiles|) + " file(s) modified. " + NatToString(totalAdded) + " lines added, "
        + NatToString(totalRemoved) + " lines removed.",
      totalAdded,
      totalRemoved,
      totalAdded + totalRemoved,
      details);
  }
}
