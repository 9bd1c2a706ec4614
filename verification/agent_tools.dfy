/** The string helpers of the agent's `Tools` (backend/agent/tools.py). */
module AgentTools {
  import opened Text

  const Ellipsis := "..."

  /** `summarize`: the text itself when it fits, otherwise Python's
      `text[:max_length]` followed by "...". A negative length counts from
      the end, as in Python. */
  function Summarize(text: string, maxLength: int): (r: string)
    ensures |text| <= maxLength ==> r == text
    ensures |text| > maxLength ==>
      && |r| == |Take(text, maxLength)| + 3
      && r[..|r| - 3] == text[..|r| - 3]
      && r[|r| - 3..] == Ellipsis
    ensures maxLength >= 0 ==> |r| <= maxLength + 3
  {
    if |text| > maxLength then Take(text, maxLength) + Ellipsis else text
  }

  /** A summary never loses the start of the text it was given. */
  lemma SummaryKeepsPrefix(text: string, maxLength: nat)
    ensures var r := Summarize(text, maxLength);
      |text| > maxLength ==> r == text[..maxLength] + Ellipsis
  {
  }

  /** The lines of `text.split("\n")` with some non-space character. */
  function NonBlankLines(text: string): (r: seq<string>)
    ensures forall l :: l in r <==> l in SplitOn(text, '\n') && !IsBlank(l)
  {
    Filter(SplitOn(text, '\n'), (l: string) => !IsBlank(l))
  }

  /** `extract_key_points`: the first `num_points` non-blank lines, in order. */
  function ExtractKeyPoints(text: string, numPoints: int): (r: seq<string>)
    ensures |r| <= |NonBlankLines(text)| && r == NonBlankLines(text)[..|r|]
    ensures numPoints >= 0 ==> |r| == Min(numPoints, |NonBlankLines(text)|)
    ensures forall l | l in r :: !IsBlank(l) && l in SplitOn(text, '\n')
  {
    Take(NonBlankLines(text), numPoints)
  }

  // ---------------------------------------------------------------------------
  // `extract_changes`
  // ---------------------------------------------------------------------------

  datatype ChangeType = Add | Remove {
    function Label(): string {
      match this
      case Add => "add"
      case Remove => "remove"
    }
  }

  /** One entry of the returned list; the file is never known. */
  datatype LineChange = LineChange(kind: ChangeType, file: string)

  const UnknownFile := "unknown"

  /** Lines whose first character is `c`. */
  function CountStartingWith(lines: seq<string>, c: char): (n: nat)
    ensures n <= |lines|
    decreases |lines|
  {
    if |lines| == 0 then 0
    else CountStartingWith(lines[..|lines| - 1], c) + (if StartsWith(lines[|lines| - 1], [c]) then 1 else 0)
  }

  /** The entries for a list of lines, one per line starting with '+' or '-'. */
  function ChangesOfLines(lines: seq<string>): (r: seq<LineChange>)
    ensures |r| <= |lines|
    ensures forall k | 0 <= k < |r| :: r[k].file == UnknownFile
    decreases |lines|
  {
    if |lines| == 0 then []
    else
      var line := lines[|lines| - 1];
      ChangesOfLines(lines[..|lines| - 1])
        + (if StartsWith(line, "+") then [LineChange(Add, UnknownFile)]
           else if StartsWith(line, "-") then [LineChange(Remove, UnknownFile)]
           else [])
  }

  /** A line that produces an entry. */
  predicate IsChangeLine(line: string) {
    StartsWith(line, "+") || StartsWith(line, "-")
  }

  /** The type of entry a change line produces: '+' is checked first. */
  function KindOf(line: string): ChangeType {
    if StartsWith(line, "+") then Add else Remove
  }

  /** The entries follow the change lines one for one and in order: entry
      `k` has the type of the `k`-th line that starts with '+' or '-'. */
  lemma {:induction false} ChangesFollowLines(lines: seq<string>)
    ensures var marked := Filter(lines, IsChangeLine);
      && |ChangesOfLines(lines)| == |marked|
      && forall k | 0 <= k < |marked| :: ChangesOfLines(lines)[k] == LineChange(KindOf(marked[k]), UnknownFile)
    decreases |lines|
  {
    if |lines| > 0 {
      var init := lines[..|lines| - 1];
      var last := lines[|lines| - 1];
      ChangesFollowLines(init);
      assert lines == init + [last];
      FilterAppend(init, [last], IsChangeLine);
      assert Filter([last], IsChangeLine) == (if IsChangeLine(last) then [last] else []) + Filter([last][1..], IsChangeLine);
      assert [last][1..] == [];
    }
  }

  /** `extract_changes`: one entry per line starting with '+' or '-', in the
      order of the lines, typed by its first character. */
  function ExtractChanges(text: string): (r: seq<LineChange>)
    ensures forall k | 0 <= k < |r| :: r[k].file == UnknownFile
    ensures var marked := Filter(SplitOn(text, '\n'), IsChangeLine);
      && |r| == |marked|
      && forall k | 0 <= k < |marked| :: r[k] == LineChange(KindOf(marked[k]), UnknownFile)
  {
    ChangesFollowLines(SplitOn(text, '\n'));
    ChangesOfLines(SplitOn(text, '\n'))
  }

  /** Entries of one type. */
  function CountKind(changes: seq<LineChange>, kind: ChangeType): (n: nat)
    decreases |changes|
  {
    if |changes| == 0 then 0
    else CountKind(changes[..|changes| - 1], kind) + (if changes[|changes| - 1].kind == kind then 1 else 0)
  }

  /** There is one "add" per line starting with '+' and one "remove" per line
      starting with '-', and nothing else. */
  lemma {:induction false} ChangesCounted(lines: seq<string>)
    ensures CountKind(ChangesOfLines(lines), Add) == CountStartingWith(lines, '+')
    ensures CountKind(ChangesOfLines(lines), Remove) == CountStartingWith(lines, '-')
    ensures |ChangesOfLines(lines)| == CountStartingWith(lines, '+') + CountStartingWith(lines, '-')
    decreases |lines|
  {
    if |lines| > 0 {
      var init := lines[..|lines| - 1];
      ChangesCounted(init);
      var r := ChangesOfLines(lines);
      assert r[..|r| - (|r| - |ChangesOfLines(init)|)] == ChangesOfLines(init);
      CountKindAppend(ChangesOfLines(init), r[|ChangesOfLines(init)|..]);
      assert r == ChangesOfLines(init) + r[|ChangesOfLines(init)|..];
    }
  }

  lemma {:induction false} CountKindAppend(a: seq<LineChange>, b: seq<LineChange>)
    requires |b| <= 1
    ensures CountKind(a + b, Add) == CountKind(a, Add) + CountKind(b, Add)
    ensures CountKind(a + b, Remove) == CountKind(a, Remove) + CountKind(b, Remove)
  {
    if |b| == 1 {
      assert (a + b)[..|a + b| - 1] == a;
      assert b[..0] == [];
    } else {
      assert a + b == a;
    }
  }

  // ---------------------------------------------------------------------------
  // Fixed answers
  // ---------------------------------------------------------------------------

  const NoDifferences := "No" + " differences"
  const DifferencesDetected := "Differences" + " detected"

  /** `compare_versions`. */
  function CompareVersions(before: string, after: string): (r: string)
    ensures r == NoDifferences <==> before == after
    ensures r == DifferencesDetected <==> before != after
  {
    assert NoDifferences[0] != DifferencesDetected[0];
    if before != after then DifferencesDetected else NoDifferences
  }

  const UncertainOpening := "I may be mistaken, but "

  /** `express_uncertainty`: the reason, lowercased, inside a fixed frame; the
      query and context play no part. */
  function ExpressUncertainty(query: string, context: string, reason: string): (r: string)
    ensures |r| == |UncertainOpening| + |reason| + 3
    ensures r[..|UncertainOpening|] == UncertainOpening
    ensures r[|UncertainOpening|..|r| - 3] == Lower(reason)
    ensures r[|r| - 3..] == ".\n\n"
  {
    UncertainOpening + Lower(reason) + ".\n\n"
  }

  /** The answer depends on the reason alone. */
  lemma UncertaintyIgnoresQueryAndContext(q1: string, c1: string, q2: string, c2: string, reason: string)
    ensures ExpressUncertainty(q1, c1, reason) == ExpressUncertainty(q2, c2, reason)
  {
  }
}
