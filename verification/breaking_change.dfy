/** `BreakingChangeDetector` (backend/change_intelligence/breaking_change.py):
    extracts function signatures and class names from two revisions and lists
    the changes that can break callers, with an overall severity. */
module BreakingChange {
  import opened Wrappers
  import opened Text
  import opened SourcePatterns

  datatype FunctionSignature = FunctionSignature(
    name: string,
    args: seq<string>,
    defaultsCount: nat,
    varargs: bool,
    kwargs: bool,
    lineNumber: nat)

  /** What `ast.parse` followed by `ast.walk` yields for a text that parses:
      every function definition and every class name, in walk order. */
  datatype ParsedModule = ParsedModule(functions: seq<FunctionSignature>, classes: seq<string>)

  /** `ast.parse`: `None` when it raises `SyntaxError`. */
  type Parser = string -> Option<ParsedModule>

  // ---------------------------------------------------------------------------
  // Regex fallback for signatures
  // ---------------------------------------------------------------------------

  /** `re.match(r'^\s*def\s+(\w+)\s*\((.*?)\)\s*:', line)`: the name and the
      parameter text of a one-line `def` header. The line comes from
      `split('\n')`, so `.` not crossing a line break never matters. The match
      exists exactly when the `def ... (` part matches at the start and some
      `)` after it is followed by `:`; the parameter text is then the shortest
      stretch after `(` that reaches such a `)`. */
  function DefHeader(line: string): (r: Option<(string, string)>)
    ensures r.Some? <==>
      DefAt(line, 0).Some? && CloseParenColon(line, DefAt(line, 0).value.end).Some?
    ensures r.Some? ==> r.value.0 != [] && r.value.0 == DefAt(line, 0).value.capture
    ensures r.Some? ==>
      var e := DefAt(line, 0).value.end;
      var j := e + |r.value.1|;
      && j < |line| && line[e..j] == r.value.1
      && ClosesHeader(line, j)
      && forall q | e <= q < j :: !ClosesHeader(line, q)
  {
    match DefAt(line, 0)
    case None => None
    case Some(h) =>
      match CloseParenColon(line, h.end)
      case None => None
      case Some(j) => Some((h.capture, line[h.end..j]))
  }

  /** `p.replace('*', '').replace('**', '')`. */
  function WithoutStars(p: string): (r: string)
    ensures forall k | 0 <= k < |r| :: r[k] != '*'
    ensures |r| <= |p|
  {
    var r := Filter(p, (c: char) => c != '*');
    assert forall k | 0 <= k < |r| :: r[k] in r;
    r
  }

  /** `p.strip().split('=')[0].strip()`: the parameter's name part. */
  function ParamName(p: string): string {
    Strip(SplitOn(Strip(p), '=')[0])
  }

  function CountChar(s: string, c: char): nat
    decreases |s|
  {
    if |s| == 0 then 0 else (if s[0] == c then 1 else 0) + CountChar(s[1..], c)
  }

  datatype Parameters = Parameters(args: seq<string>, defaultsCount: nat, varargs: bool, kwargs: bool)

  /** `if p`: a parameter name survives the cleanup when it is not empty. */
  predicate NonEmptyName(p: string) {
    p != ""
  }

  /** `[p.replace('*', '').replace('**', '') for p in params if p]`. */
  function CleanArgs(names: seq<string>): (r: seq<string>)
    ensures |r| <= |names|
    ensures forall a | a in r :: forall k | 0 <= k < |a| :: a[k] != '*'
    decreases |names|
  {
    if |names| == 0 then []
    else (if names[0] != "" then [WithoutStars(names[0])] else []) + CleanArgs(names[1..])
  }

  /** The cleaned arguments are the non-empty names, in order, each with its
      stars removed. */
  lemma {:induction false} CleanArgsKeepsNames(names: seq<string>)
    ensures var kept := Filter(names, NonEmptyName);
      && |CleanArgs(names)| == |kept|
      && forall k | 0 <= k < |kept| :: CleanArgs(names)[k] == WithoutStars(kept[k])
    decreases |names|
  {
    if |names| > 0 {
      CleanArgsKeepsNames(names[1..]);
      var head := if NonEmptyName(names[0]) then [names[0]] else [];
      var kept := Filter(names, NonEmptyName);
      var rest := Filter(names[1..], NonEmptyName);
      var cleaned := CleanArgs(names);
      var cleanedHead := if names[0] != "" then [WithoutStars(names[0])] else [];
      assert kept == head + rest;
      assert cleaned == cleanedHead + CleanArgs(names[1..]);
      forall k | 0 <= k < |kept|
        ensures cleaned[k] == WithoutStars(kept[k])
      {
        if k >= |head| {
          assert cleaned[k] == CleanArgs(names[1..])[k - |head|];
          assert kept[k] == rest[k - |head|];
        }
      }
    }
  }

  /** The cleanup works piece by piece: appending one parameter name appends
      it without stars when it is not empty, and nothing otherwise. */
  lemma {:induction false} CleanArgsAppend(names: seq<string>, p: string)
    ensures CleanArgs(names + [p]) == CleanArgs(names) + (if p != "" then [WithoutStars(p)] else [])
    decreases |names|
  {
    if |names| == 0 {
      assert names + [p] == [p];
      assert [p][1..] == [];
    } else {
      assert (names + [p])[1..] == names[1..] + [p];
      CleanArgsAppend(names[1..], p);
    }
  }

  function ParamNames(pieces: seq<string>): (r: seq<string>)
    ensures |r| == |pieces|
    ensures forall k | 0 <= k < |r| :: r[k] == ParamName(pieces[k])
  {
    seq(|pieces|, k requires 0 <= k < |pieces| => ParamName(pieces[k]))
  }

  /** The parameter heuristic of `_extract_functions_regex`. */
  function ParseParameters(params: string): (r: Parameters)
    ensures Strip(params) == "" ==> r == Parameters([], 0, false, false)
    ensures Strip(params) != "" ==>
      && r.defaultsCount == CountChar(params, '=')
      && (r.varargs <==> Contains(params, "*args"))
      && (r.kwargs <==> Contains(params, "**kwargs"))
      && (var kept := Filter(ParamNames(SplitOn(params, ',')), NonEmptyName);
          |r.args| == |kept| && forall k | 0 <= k < |kept| :: r.args[k] == WithoutStars(kept[k]))
    ensures forall a | a in r.args :: forall k | 0 <= k < |a| :: a[k] != '*'
  {
    if Strip(params) == "" then Parameters([], 0, false, false)
    else
      var pieces := SplitOn(params, ',');
      CommaAlternativesRedundant(params);
      CleanArgsKeepsNames(ParamNames(pieces));
      Parameters(
        CleanArgs(ParamNames(pieces)),
        CountChar(params, '='),
        Contains(params, "*args") || Contains(params, "*args,"),
        Contains(params, "**kwargs") || Contains(params, "**kwargs,"))
  }

  /** The signature a line yields, numbered from 1. */
  function SignatureOfLine(line: string, lineNumber: nat): (r: Option<FunctionSignature>)
    ensures r.Some? <==> DefHeader(line).Some?
    ensures r.Some? ==>
      var p := ParseParameters(DefHeader(line).value.1);
      && r.value.lineNumber == lineNumber && r.value.name == DefHeader(line).value.0
      && r.value.args == p.args && r.value.defaultsCount == p.defaultsCount
      && r.value.varargs == p.varargs && r.value.kwargs == p.kwargs
  {
    match DefHeader(line)
    case None => None
    case Some(header) =>
      var p := ParseParameters(header.1);
      Some(FunctionSignature(header.0, p.args, p.defaultsCount, p.varargs, p.kwargs, lineNumber))
  }

  /** `sigs` are the signatures `lineResult` gives the lines, in line order: each
      comes from the line with its number, and every line that gives one is
      represented. */
  predicate ListsLineResults(lines: seq<string>, first: nat, sigs: seq<FunctionSignature>,
                             lineResult: (string, nat) -> Option<FunctionSignature>) {
    && (forall sig | sig in sigs ::
          && first <= sig.lineNumber < first + |lines|
          && lineResult(lines[sig.lineNumber - first], sig.lineNumber) == Some(sig))
    && (forall i | 0 <= i < |lines| && lineResult(lines[i], first + i).Some? ::
          lineResult(lines[i], first + i).value in sigs)
    && (forall a, b | 0 <= a < b < |sigs| :: sigs[a].lineNumber < sigs[b].lineNumber)
  }

  /** Signatures of `lines`, the first of which has number `first`. */
  function SignaturesOfLines(lines: seq<string>, first: nat): (r: seq<FunctionSignature>)
    ensures |r| <= |lines|
    ensures ListsLineResults(lines, first, r, SignatureOfLine)
  {
    ScanLines(lines, first, SignatureOfLine)
  }

  /** The results of `lineResult` on each line, numbered from `first`, in
      line order. */
  function ScanLines(lines: seq<string>, first: nat, lineResult: (string, nat) -> Option<FunctionSignature>)
    : (r: seq<FunctionSignature>)
    requires forall l, n :: lineResult(l, n).Some? ==> lineResult(l, n).value.lineNumber == n
    ensures |r| <= |lines|
    ensures ListsLineResults(lines, first, r, lineResult)
    decreases |lines|
  {
    if |lines| == 0 then []
    else
      var rest := ScanLines(lines[1..], first + 1, lineResult);
      var head := match lineResult(lines[0], first) case Some(sig) => [sig] case None => [];
      LineResultsStep(lines, first, head, rest, lineResult);
      head + rest
  }

  /** One step of a line scan: the first line's result, if any, in front of
      the results of the remaining lines. */
  lemma LineResultsStep(lines: seq<string>, first: nat, head: seq<FunctionSignature>, rest: seq<FunctionSignature>,
                        lineResult: (string, nat) -> Option<FunctionSignature>)
    requires |lines| > 0
    requires forall l, n :: lineResult(l, n).Some? ==> lineResult(l, n).value.lineNumber == n
    requires head == match lineResult(lines[0], first) case Some(sig) => [sig] case None => []
    requires ListsLineResults(lines[1..], first + 1, rest, lineResult)
    ensures ListsLineResults(lines, first, head + rest, lineResult)
  {
    var r := head + rest;
    forall sig | sig in r
      ensures first <= sig.lineNumber < first + |lines|
      ensures lineResult(lines[sig.lineNumber - first], sig.lineNumber) == Some(sig)
    {
      if sig in rest {
        assert lines[1..][sig.lineNumber - (first + 1)] == lines[sig.lineNumber - first];
      } else {
        assert head == [lineResult(lines[0], first).value] && sig == head[0];
      }
    }
    forall i | 0 <= i < |lines| && lineResult(lines[i], first + i).Some?
      ensures lineResult(lines[i], first + i).value in r
    {
      if i > 0 {
        assert lines[1..][i - 1] == lines[i];
      }
    }
    forall a, b | 0 <= a < b < |r| ensures r[a].lineNumber < r[b].lineNumber {
      if a >= |head| {
        assert r[a] == rest[a - |head|] && r[b] == rest[b - |head|];
      } else {
        assert r[a] == head[0] && r[a].lineNumber == first;
        assert r[b] == rest[b - |head|] && r[b] in rest;
      }
    }
  }

  /** `_extract_functions_regex`: `content.split('\n')`, lines numbered from 1. */
  function RegexSignatures(content: string): (r: seq<FunctionSignature>)
    ensures ListsLineResults(SplitOn(content, '\n'), 1, r, SignatureOfLine)
  {
    SignaturesOfLines(SplitOn(content, '\n'), 1)
  }

  /** `_extract_function_signatures`: the parser's definitions, else the regex fallback. */
  function ExtractSignatures(content: string, parser: Parser): (r: seq<FunctionSignature>)
    ensures parser(content).Some? ==> r == parser(content).value.functions
    ensures parser(content).None? ==> ListsLineResults(SplitOn(content, '\n'), 1, r, SignatureOfLine)
  {
    match parser(content)
    case Some(m) => m.functions
    case None => RegexSignatures(content)
  }

  /** `_extract_classes`: the parser's class names, else `^\s*class\s+(\w+)`. */
  function ExtractClasses(content: string, parser: Parser): (r: seq<string>)
    ensures Distinct(r)
    ensures parser(content).Some? ==> Elems(r) == Elems(parser(content).value.classes)
    ensures parser(content).None? ==> Elems(r) == Elems(ClassNames(content))
  {
    match parser(content)
    case Some(m) => Dedup(m.classes)
    case None => Dedup(ClassNames(content))
  }

  /** An empty or blank parameter text gives no parameters, no defaults and
      no star flags. */
  lemma EmptyParameterText(line: string, lineNumber: nat)
    requires DefHeader(line).Some? && Strip(DefHeader(line).value.1) == ""
    ensures var sig := SignatureOfLine(line, lineNumber).value;
      sig.args == [] && sig.defaultsCount == 0 && !sig.varargs && !sig.kwargs
  {
  }

  /** Star parameters stay in `args` under their bare names: `*args` and
      `**kwargs` become `args` and `kwargs`. */
  lemma StarParametersKeptByName(w: string)
    requires forall k | 0 <= k < |w| :: w[k] != '*'
    ensures WithoutStars("*" + w) == w
    ensures WithoutStars("**" + w) == w
  {
    var keep := (c: char) => c != '*';
    FilterAppend("*", w, keep);
    FilterAppend("**", w, keep);
    FilterKeepsAll(w, keep);
  }

  /** Each parameter piece contributes on its own: a piece whose name part is
      not empty adds that name without stars to `args`, any other adds
      nothing. */
  lemma ArgsOfPieces(pieces: seq<string>, p: string)
    ensures CleanArgs(ParamNames(pieces + [p])) ==
      CleanArgs(ParamNames(pieces)) + (if ParamName(p) != "" then [WithoutStars(ParamName(p))] else [])
  {
    var names, name := ParamNames(pieces), ParamName(p);
    ParamNamesAppend(pieces, p);
    CleanArgsAppend(names, name);
  }

  lemma ParamNamesAppend(pieces: seq<string>, p: string)
    ensures ParamNames(pieces + [p]) == ParamNames(pieces) + [ParamName(p)]
  {
    var all, init, last := ParamNames(pieces + [p]), ParamNames(pieces), ParamName(p);
    forall k | 0 <= k < |all|
      ensures all[k] == (init + [last])[k]
    {
      if k < |pieces| {
        assert (pieces + [p])[k] == pieces[k];
      }
    }
  }

  /** A `*w` or `**w` parameter piece puts `w` itself into `args`. */
  lemma StarPieceKeptByName(pieces: seq<string>, p: string, w: string)
    requires w != "" && forall k | 0 <= k < |w| :: w[k] != '*'
    requires ParamName(p) == "*" + w || ParamName(p) == "**" + w
    ensures CleanArgs(ParamNames(pieces + [p])) == CleanArgs(ParamNames(pieces)) + [w]
  {
    ArgsOfPieces(pieces, p);
    StarParametersKeptByName(w);
  }

  /** The `or '*args,'` alternatives add nothing: a text containing
      `*args,` contains `*args`. */
  lemma CommaAlternativesRedundant(params: string)
    ensures Contains(params, "*args,") ==> Contains(params, "*args")
    ensures Contains(params, "**kwargs,") ==> Contains(params, "**kwargs")
  {
    if Contains(params, "*args,") {
      var i :| 0 <= i <= |params| - 6 && OccursAt(params, "*args,", i);
      assert params[i..i + 5] == params[i..i + 6][..5];
      assert OccursAt(params, "*args", i);
    }
    if Contains(params, "**kwargs,") {
      var i :| 0 <= i <= |params| - 9 && OccursAt(params, "**kwargs,", i);
      assert params[i..i + 8] == params[i..i + 9][..8];
      assert OccursAt(params, "**kwargs", i);
    }
  }

  // ---------------------------------------------------------------------------
  // `_compare_signatures`
  // ---------------------------------------------------------------------------

  /** Parameters without defaults. */
  function RequiredCount(sig: FunctionSignature): int {
    |sig.args| - sig.defaultsCount
  }

  /** The number of parameter names the two signatures share. */
  function CommonCount(o: FunctionSignature, n: FunctionSignature): nat {
    |Elems(o.args) * Elems(n.args)|
  }

  predicate AddsRequired(o: FunctionSignature, n: FunctionSignature) {
    RequiredCount(n) > RequiredCount(o)
  }

  predicate RemovesParameters(o: FunctionSignature, n: FunctionSignature) {
    |o.args| > |n.args|
  }

  predicate ReordersParameters(o: FunctionSignature, n: FunctionSignature) {
    var k := CommonCount(o, n);
    k > 0 && Take(o.args, k) != Take(n.args, k)
  }

  predicate RemovesVarargs(o: FunctionSignature, n: FunctionSignature) {
    o.varargs && !n.varargs
  }

  predicate RemovesKwargs(o: FunctionSignature, n: FunctionSignature) {
    o.kwargs && !n.kwargs
  }

  function AddedRequiredText(o: FunctionSignature, n: FunctionSignature): string {
    "added " + IntToString(RequiredCount(n) - RequiredCount(o)) + " required parameter(s)"
  }

  /** Names `old.args[len(new.args):]`, which is empty when the new list is
      not shorter. */
  function RemovedParametersText(o: FunctionSignature, n: FunctionSignature): string {
    "removed parameter(s): " + Join(if |n.args| <= |o.args| then o.args[|n.args|..] else [], ", ")
  }

  const OrderChangedText := "parameter order changed"
  const VarargsRemovedText := "removed *args"
  const KwargsRemovedText := "removed **kwargs"

  /** Which rule a sub-reason comes from, read off its wording: 0 required,
      1 removed parameters, 2 order, 3 *args, 4 **kwargs. */
  function IssueRule(t: string): nat {
    if |t| > 0 && t[0] == 'a' then 0
    else if |t| > 0 && t[0] == 'p' then 2
    else if |t| > 9 && t[8] == 'p' then 1
    else if |t| > 9 && t[9] == 'a' then 3
    else 4
  }

  /** Each rule's wording is told apart by `IssueRule`. */
  lemma IssueRules(o: FunctionSignature, n: FunctionSignature)
    ensures IssueRule(AddedRequiredText(o, n)) == 0
    ensures IssueRule(RemovedParametersText(o, n)) == 1
    ensures IssueRule(OrderChangedText) == 2
    ensures IssueRule(VarargsRemovedText) == 3
    ensures IssueRule(KwargsRemovedText) == 4
  {
    assert AddedRequiredText(o, n)[0] == 'a';
    var t := RemovedParametersText(o, n);
    assert t[0] == 'r' && t[8] == 'p' && |t| > 9;
    assert OrderChangedText[0] == 'p';
    assert VarargsRemovedText[0] == 'r' && VarargsRemovedText[8] == '*' && VarargsRemovedText[9] == 'a';
    assert KwargsRemovedText[0] == 'r' && KwargsRemovedText[8] == '*' && KwargsRemovedText[9] == '*';
  }

  /** The sub-reasons, in the order required / removed / order / *args / **kwargs. */
  function SignatureIssues(o: FunctionSignature, n: FunctionSignature): (r: seq<string>)
    ensures |r| == 0 <==>
      !AddsRequired(o, n) && !RemovesParameters(o, n) && !ReordersParameters(o, n)
      && !RemovesVarargs(o, n) && !RemovesKwargs(o, n)
    ensures AddedRequiredText(o, n) in r <==> AddsRequired(o, n)
    ensures RemovedParametersText(o, n) in r <==> RemovesParameters(o, n)
    ensures OrderChangedText in r <==> ReordersParameters(o, n)
    ensures VarargsRemovedText in r <==> RemovesVarargs(o, n)
    ensures KwargsRemovedText in r <==> RemovesKwargs(o, n)
    ensures forall i, j | 0 <= i < j < |r| :: IssueRule(r[i]) < IssueRule(r[j])
    ensures forall t | t in r ::
      t == AddedRequiredText(o, n) || t == RemovedParametersText(o, n) || t == OrderChangedText
      || t == VarargsRemovedText || t == KwargsRemovedText
  {
    IssueRules(o, n);
    RulesPresent(
      AddsRequired(o, n), RemovesParameters(o, n), ReordersParameters(o, n), RemovesVarargs(o, n), RemovesKwargs(o, n),
      AddedRequiredText(o, n), RemovedParametersText(o, n), OrderChangedText, VarargsRemovedText, KwargsRemovedText);
    RulesInOrder(
      AddsRequired(o, n), RemovesParameters(o, n), ReordersParameters(o, n), RemovesVarargs(o, n), RemovesKwargs(o, n),
      AddedRequiredText(o, n), RemovedParametersText(o, n), OrderChangedText, VarargsRemovedText, KwargsRemovedText);
    When(AddsRequired(o, n), AddedRequiredText(o, n))
    + When(RemovesParameters(o, n), RemovedParametersText(o, n))
    + When(ReordersParameters(o, n), OrderChangedText)
    + When(RemovesVarargs(o, n), VarargsRemovedText)
    + When(RemovesKwargs(o, n), KwargsRemovedText)
  }

  /** Five rules' texts appended when their rules fire: a text is in the
      list exactly when its rule fires, and nothing else is. */
  lemma RulesPresent(pa: bool, pb: bool, pc: bool, pd: bool, pe: bool,
                     ta: string, tb: string, tc: string, td: string, te: string)
    requires IssueRule(ta) == 0 && IssueRule(tb) == 1 && IssueRule(tc) == 2
    requires IssueRule(td) == 3 && IssueRule(te) == 4
    ensures var r := When(pa, ta) + When(pb, tb) + When(pc, tc) + When(pd, td) + When(pe, te);
      && (ta in r <==> pa) && (tb in r <==> pb) && (tc in r <==> pc) && (td in r <==> pd) && (te in r <==> pe)
      && (|r| == 0 <==> !pa && !pb && !pc && !pd && !pe)
      && (forall t | t in r :: t == ta || t == tb || t == tc || t == td || t == te)
  {
    var a, b, c, d, e := When(pa, ta), When(pb, tb), When(pc, tc), When(pd, td), When(pe, te);
    forall t | t in a + b + c + d + e
      ensures t in a || t in b || t in c || t in d || t in e
    {
    }
  }

  /** The same list is strictly ordered by rule. */
  lemma RulesInOrder(pa: bool, pb: bool, pc: bool, pd: bool, pe: bool,
                     ta: string, tb: string, tc: string, td: string, te: string)
    requires IssueRule(ta) == 0 && IssueRule(tb) == 1 && IssueRule(tc) == 2
    requires IssueRule(td) == 3 && IssueRule(te) == 4
    ensures var r := When(pa, ta) + When(pb, tb) + When(pc, tc) + When(pd, td) + When(pe, te);
      forall i, j | 0 <= i < j < |r| :: IssueRule(r[i]) < IssueRule(r[j])
  {
    var a, b, c, d, e := When(pa, ta), When(pb, tb), When(pc, tc), When(pd, td), When(pe, te);
    var r := a + b + c + d + e;
    forall k | 0 <= k < |r|
      ensures IssueRule(r[k]) ==
        (if k < |a| then 0 else if k < |a| + |b| then 1 else if k < |a| + |b| + |c| then 2
         else if k < |a| + |b| + |c| + |d| then 3 else 4)
    {
      if k < |a| {
        assert r[k] == ta;
      } else if k < |a| + |b| {
        assert r[k] == tb;
      } else if k < |a| + |b| + |c| {
        assert r[k] == tc;
      } else if k < |a| + |b| + |c| + |d| {
        assert r[k] == td;
      } else {
        assert r[k] == te;
      }
    }
  }

  /** `_compare_signatures`: `None` when compatible, else the joined sub-reasons. */
  function CompareSignatures(o: FunctionSignature, n: FunctionSignature): (r: Option<string>)
    ensures r.None? <==>
      !AddsRequired(o, n) && !RemovesParameters(o, n) && !ReordersParameters(o, n)
      && !RemovesVarargs(o, n) && !RemovesKwargs(o, n)
    ensures r.Some? ==> r.value == Join(SignatureIssues(o, n), "; ")
  {
    var issues := SignatureIssues(o, n);
    if |issues| > 0 then Some(Join(issues, "; ")) else None
  }

  /** A signature is compatible with itself. */
  lemma CompareWithItself(sig: FunctionSignature)
    ensures CompareSignatures(sig, sig) == None
  {
  }

  /** More required parameters are reported with their number. */
  lemma AddedRequiredReported(o: FunctionSignature, n: FunctionSignature)
    requires AddsRequired(o, n)
    ensures CompareSignatures(o, n).Some?
    ensures Contains(CompareSignatures(o, n).value,
      "added " + IntToString(RequiredCount(n) - RequiredCount(o)) + " required parameter(s)")
  {
    IssueReported(o, n, 0);
  }

  /** Fewer parameters are reported with the dropped tail, in order. */
  lemma RemovedParametersReported(o: FunctionSignature, n: FunctionSignature)
    requires RemovesParameters(o, n)
    ensures CompareSignatures(o, n).Some?
    ensures Contains(CompareSignatures(o, n).value, "removed parameter(s): " + Join(o.args[|n.args|..], ", "))
  {
    var issues := SignatureIssues(o, n);
    var k :| 0 <= k < |issues| && issues[k] == RemovedParametersText(o, n);
    IssueReported(o, n, k);
  }

  lemma IssueReported(o: FunctionSignature, n: FunctionSignature, k: nat)
    requires k < |SignatureIssues(o, n)|
    ensures CompareSignatures(o, n).Some?
    ensures Contains(CompareSignatures(o, n).value, SignatureIssues(o, n)[k])
  {
    JoinContainsParts(SignatureIssues(o, n), "; ", k);
  }

  /** `args` with the name at position `i` replaced by `x`. */
  function Renamed(args: seq<string>, i: nat, x: string): (r: seq<string>)
    requires i < |args|
    ensures |r| == |args|
  {
    args[i := x]
  }

  /** Renaming one parameter in place (fresh name, same count and defaults) is
      flagged exactly when it is not the last parameter: the order check only
      compares the first |shared names| positions. */
  lemma {:induction false} RenameInPlace(o: FunctionSignature, i: nat, x: string)
    requires Distinct(o.args) && i < |o.args| && x !in o.args
    ensures var n := o.(args := Renamed(o.args, i, x));
      CompareSignatures(o, n).None? <==> i == |o.args| - 1
  {
    var n := o.(args := Renamed(o.args, i, x));
    var m := |o.args| - 1;
    assert Elems(o.args) * Elems(n.args) == Elems(o.args) - {o.args[i]} by {
      forall y | y in Elems(o.args) * Elems(n.args)
        ensures y in Elems(o.args) - {o.args[i]}
      {
        var j :| 0 <= j < |n.args| && n.args[j] == y;
        assert j != i;
        assert o.args[j] == y;
      }
      forall y | y in Elems(o.args) - {o.args[i]}
        ensures y in Elems(n.args)
      {
        var j :| 0 <= j < |o.args| && o.args[j] == y;
        assert j != i && n.args[j] == y;
      }
    }
    DistinctCard(o.args);
    assert o.args[i] in Elems(o.args);
    assert CommonCount(o, n) == m;
    if i < m {
      assert Take(o.args, m)[i] != Take(n.args, m)[i];
      assert ReordersParameters(o, n);
    } else {
      assert Take(o.args, m) == Take(n.args, m);
    }
  }

  /** The scenario of the project's test script (`format` renamed to
      `output_format` in `process_data(data, format="json")`): renaming the
      last of two parameters is not flagged. */
  lemma RenameLastOfTwo()
    ensures CompareSignatures(
      FunctionSignature("process_data", ["data", "format"], 1, false, false, 2),
      FunctionSignature("process_data", ["data", "output_format"], 1, false, false, 2)) == None
  {
    var o := FunctionSignature("process_data", ["data", "format"], 1, false, false, 2);
    assert Distinct(o.args);
    assert o.args[1 := "output_format"] == ["data", "output_format"];
    RenameInPlace(o, 1, "output_format");
  }

  // ---------------------------------------------------------------------------
  // Events and the report
  // ---------------------------------------------------------------------------

  datatype Severity = NoSeverity | Low | Medium | High {
    function Label(): string {
      match this
      case NoSeverity => "none"
      case Low => "low"
      case Medium => "medium"
      case High => "high"
    }

    function Rank(): nat {
      match this
      case NoSeverity => 0
      case Low => 1
      case Medium => 2
      case High => 3
    }
  }

  datatype ChangeKind = FunctionRemoved | SignatureChanged | ClassRemoved | MethodRemoved {
    function Label(): string {
      match this
      case FunctionRemoved => "function_removed"
      case SignatureChanged => "signature_changed"
      case ClassRemoved => "class_removed"
      case MethodRemoved => "method_removed"
    }

    /** Position of the kind's group in the event list. */
    function Group(): nat {
      match this
      case FunctionRemoved => 0
      case SignatureChanged => 1
      case ClassRemoved => 2
      case MethodRemoved => 3
    }
  }

  datatype ChangeEvent = ChangeEvent(kind: ChangeKind, description: string, location: string, severity: Severity)

  /** The dictionary `detect_breaking_changes` returns. */
  datatype BreakingReport = BreakingReport(
    breakingChange: bool,
    details: string,
    severity: Severity,
    changes: seq<ChangeEvent>,
    file: string)

  /** `{f.name for f in functions}`, in first-occurrence order. */
  function NameSet(sigs: seq<FunctionSignature>): (r: seq<string>)
    ensures Distinct(r)
    ensures |r| <= |sigs|
    ensures forall x :: x in r <==> exists s | s in sigs :: s.name == x
  {
    var names := seq(|sigs|, k requires 0 <= k < |sigs| => sigs[k].name);
    forall x ensures x in names <==> exists s | s in sigs :: s.name == x {
      if exists s | s in sigs :: s.name == x {
        var s :| s in sigs && s.name == x;
        var k :| 0 <= k < |sigs| && sigs[k] == s;
        assert names[k] == x;
      }
    }
    Dedup(names)
  }

  /** `{f.name: f for f in functions}[name]`: the last signature with that name. */
  function LastNamed(sigs: seq<FunctionSignature>, name: string): (r: Option<FunctionSignature>)
    ensures r.Some? <==> exists s | s in sigs :: s.name == name
    ensures r.Some? ==> r.value in sigs && r.value.name == name
    decreases |sigs|
  {
    if |sigs| == 0 then None
    else
      var last := sigs[|sigs| - 1];
      var init := sigs[..|sigs| - 1];
      assert forall s :: s in sigs <==> s in init || s == last;
      if last.name == name then Some(last) else LastNamed(init, name)
  }

  /** The event for one function name that disappeared. */
  function FunctionRemovedEvent(name: string, path: string): ChangeEvent {
    ChangeEvent(FunctionRemoved, "Function '" + name + "' was removed", path, High)
  }

  function RemovedFunctionEvents(names: seq<string>, path: string): (r: seq<ChangeEvent>)
    ensures |r| == |names|
    ensures forall e | e in r :: e.kind == FunctionRemoved && e.severity == High && e.location == path
    ensures forall x :: FunctionRemovedEvent(x, path) in r <==> x in names
  {
    var r := seq(|names|, k requires 0 <= k < |names| => FunctionRemovedEvent(names[k], path));
    forall x ensures FunctionRemovedEvent(x, path) in r <==> x in names {
      if FunctionRemovedEvent(x, path) in r {
        var k :| 0 <= k < |r| && r[k] == FunctionRemovedEvent(x, path);
        QuotedInjective("Function '", x, names[k], "' was removed");
      }
      if x in names {
        var k :| 0 <= k < |names| && names[k] == x;
        assert r[k] == FunctionRemovedEvent(x, path);
      }
    }
    r
  }

  /** A name quoted between a fixed prefix and suffix can be read back. */
  lemma QuotedInjective(pre: string, a: string, b: string, post: string)
    requires pre + a + post == pre + b + post
    ensures a == b
  {
    var da := pre + a + post;
    var db := pre + b + post;
    assert |a| == |b|;
    assert a == da[|pre|..|pre| + |a|];
    assert b == db[|pre|..|pre| + |b|];
  }

  /** The "signature_changed" event for a name both versions define, when
      its last definitions are incompatible; it points at the new definition. */
  function SignatureEventFor(name: string, oldSigs: seq<FunctionSignature>, newSigs: seq<FunctionSignature>, path: string)
    : (r: Option<ChangeEvent>)
    ensures r.Some? <==>
      && LastNamed(oldSigs, name).Some? && LastNamed(newSigs, name).Some?
      && CompareSignatures(LastNamed(oldSigs, name).value, LastNamed(newSigs, name).value).Some?
    ensures r.Some? ==> r.value.kind == SignatureChanged && r.value.severity == High
    ensures r.Some? ==> r.value.location == path + ":" + NatToString(LastNamed(newSigs, name).value.lineNumber)
  {
    match (LastNamed(oldSigs, name), LastNamed(newSigs, name))
    case (Some(o), Some(n)) =>
      (match CompareSignatures(o, n)
       case Some(sub) =>
         Some(ChangeEvent(SignatureChanged, "Function '" + name + "' signature changed: " + sub,
           path + ":" + NatToString(n.lineNumber), High))
       case None => None)
    case _ => None
  }

  /** One event per shared name whose signatures are incompatible, in name order. */
  function SignatureEvents(
    names: seq<string>, oldSigs: seq<FunctionSignature>, newSigs: seq<FunctionSignature>, path: string)
    : (r: seq<ChangeEvent>)
    ensures |r| <= |names|
    ensures forall e | e in r :: e.kind == SignatureChanged && e.severity == High
    ensures forall x | x in names && SignatureEventFor(x, oldSigs, newSigs, path).Some? ::
      SignatureEventFor(x, oldSigs, newSigs, path).value in r
    ensures forall e | e in r :: exists x | x in names :: SignatureEventFor(x, oldSigs, newSigs, path) == Some(e)
    decreases |names|
  {
    if |names| == 0 then []
    else
      var rest := SignatureEvents(names[1..], oldSigs, newSigs, path);
      match SignatureEventFor(names[0], oldSigs, newSigs, path)
      case Some(e) => [e] + rest
      case None => rest
  }

  /** The event for one class that disappeared. */
  function ClassRemovedEvent(name: string, path: string): ChangeEvent {
    ChangeEvent(ClassRemoved, "Class '" + name + "' was removed", path, High)
  }

  function ClassEvents(names: seq<string>, path: string): (r: seq<ChangeEvent>)
    ensures |r| == |names|
    ensures forall e | e in r :: e.kind == ClassRemoved && e.severity == High && e.location == path
    ensures forall x :: ClassRemovedEvent(x, path) in r <==> x in names
  {
    var r := seq(|names|, k requires 0 <= k < |names| => ClassRemovedEvent(names[k], path));
    forall x ensures ClassRemovedEvent(x, path) in r <==> x in names {
      if ClassRemovedEvent(x, path) in r {
        var k :| 0 <= k < |r| && r[k] == ClassRemovedEvent(x, path);
        QuotedInjective("Class '", x, names[k], "' was removed");
      }
      if x in names {
        var k :| 0 <= k < |names| && names[k] == x;
        assert r[k] == ClassRemovedEvent(x, path);
      }
    }
    r
  }

  /** The event for one public method that disappeared. */
  function MethodRemovedEvent(name: string): ChangeEvent {
    ChangeEvent(MethodRemoved, "Public method '" + name + "' was removed", "unknown", Medium)
  }

  /** `_detect_removed_public_attributes`: one event per public `def` name of
      the old text that the new text lacks. */
  function MethodEvents(oldContent: string, newContent: string): (r: seq<ChangeEvent>)
    ensures forall e | e in r :: e.kind == MethodRemoved && e.severity == Medium && e.location == "unknown"
    ensures Distinct(r)
    ensures forall m :: MethodRemovedEvent(m) in r <==>
      m in PublicDefNames(oldContent) && m !in PublicDefNames(newContent)
  {
    var removed := Dedup(Minus(PublicDefNames(oldContent), PublicDefNames(newContent)));
    var r := seq(|removed|, k requires 0 <= k < |removed| => MethodRemovedEvent(removed[k]));
    forall m ensures MethodRemovedEvent(m) in r <==> m in removed {
      if MethodRemovedEvent(m) in r {
        var k :| 0 <= k < |r| && r[k] == MethodRemovedEvent(m);
        QuotedInjective("Public method '", m, removed[k], "' was removed");
      }
      if m in removed {
        var k :| 0 <= k < |removed| && removed[k] == m;
        assert r[k] == MethodRemovedEvent(m);
      }
    }
    forall i, j | 0 <= i < j < |r| ensures r[i] != r[j] {
      if r[i] == r[j] {
        QuotedInjective("Public method '", removed[i], removed[j], "' was removed");
      }
    }
    r
  }

  /** Only names of at least two characters starting with a letter are
      reported: `[a-zA-Z]\w+` skips one-letter and underscore names. */
  lemma RemovedMethodsArePublic(oldContent: string, newContent: string, m: string)
    requires MethodRemovedEvent(m) in MethodEvents(oldContent, newContent)
    ensures IsPublicName(m)
  {
    FindAllCaptures(oldContent, 0, PublicDefAt, m);
  }

  /** The events in group order: removed functions, changed signatures,
      removed classes, removed public methods. Removed methods are of medium
      severity, every other event of high severity. */
  function BreakingEvents(oldContent: string, newContent: string, path: string, parser: Parser): (r: seq<ChangeEvent>)
    ensures forall e | e in r :: e.severity == (if e.kind == MethodRemoved then Medium else High)
    ensures forall i, j | 0 <= i < j < |r| :: r[i].kind.Group() <= r[j].kind.Group()
  {
    GroupedEvents(
      ExtractSignatures(oldContent, parser), ExtractSignatures(newContent, parser),
      ExtractClasses(oldContent, parser), ExtractClasses(newContent, parser),
      oldContent, newContent, path)
  }

  /** The four event groups for given signatures and class names. */
  function GroupedEvents(
    oldSigs: seq<FunctionSignature>, newSigs: seq<FunctionSignature>,
    oldClasses: seq<string>, newClasses: seq<string>,
    oldContent: string, newContent: string, path: string): (r: seq<ChangeEvent>)
    ensures forall e | e in r :: e.severity == (if e.kind == MethodRemoved then Medium else High)
    ensures forall i, j | 0 <= i < j < |r| :: r[i].kind.Group() <= r[j].kind.Group()
  {
    var oldNames := NameSet(oldSigs);
    var newNames := NameSet(newSigs);
    var shared := Filter(oldNames, (x: string) => x in newNames);
    EventGroups(Minus(oldNames, newNames), shared, oldSigs, newSigs, Minus(oldClasses, newClasses), oldContent, newContent, path);
    InGroups(
      RemovedFunctionEvents(Minus(oldNames, newNames), path),
      SignatureEvents(shared, oldSigs, newSigs, path),
      ClassEvents(Minus(oldClasses, newClasses), path),
      MethodEvents(oldContent, newContent))
  }

  /** Four groups appended in group order. */
  function InGroups(a: seq<ChangeEvent>, b: seq<ChangeEvent>, c: seq<ChangeEvent>, d: seq<ChangeEvent>): (r: seq<ChangeEvent>)
    requires forall e | e in a :: e.kind.Group() == 0 && e.severity == High
    requires forall e | e in b :: e.kind.Group() == 1 && e.severity == High
    requires forall e | e in c :: e.kind.Group() == 2 && e.severity == High
    requires forall e | e in d :: e.kind.Group() == 3 && e.severity == Medium
    ensures forall e | e in r :: e.severity == (if e.kind == MethodRemoved then Medium else High)
    ensures forall i, j | 0 <= i < j < |r| :: r[i].kind.Group() <= r[j].kind.Group()
  {
    GroupsInOrder(a, b, c, d);
    a + b + c + d
  }

  /** "high" if any event is high, else "medium" if any is medium, else "low"
      if there are events, else "none". */
  function OverallSeverity(changes: seq<ChangeEvent>): (r: Severity)
    ensures r == NoSeverity <==> |changes| == 0
    ensures forall e | e in changes :: e.severity.Rank() <= r.Rank()
    ensures r == High || r == Medium ==> exists e | e in changes :: e.severity == r
  {
    if exists e | e in changes :: e.severity == High then High
    else if exists e | e in changes :: e.severity == Medium then Medium
    else if |changes| > 0 then Low
    else NoSeverity
  }

  function Descriptions(changes: seq<ChangeEvent>): (r: seq<string>)
    ensures |r| == |changes|
    ensures forall k | 0 <= k < |r| :: r[k] == changes[k].description
  {
    seq(|changes|, k requires 0 <= k < |changes| => changes[k].description)
  }

  const NoBreakingDetails := "No breaking changes detected"

  /** `detect_breaking_changes`. */
  function DetectBreakingChanges(oldContent: string, newContent: string, path: string, parser: Parser)
    : (r: BreakingReport)
    ensures r.file == path
    ensures r.breakingChange <==> |r.changes| > 0
    ensures r.breakingChange <==> r.severity != NoSeverity
    ensures !r.breakingChange ==> r.details == NoBreakingDetails
    ensures r.breakingChange ==> r.details == Join(Descriptions(r.changes), "; ")
    ensures r.changes == BreakingEvents(oldContent, newContent, path, parser)
  {
    ReportOf(BreakingEvents(oldContent, newContent, path, parser), path)
  }

  /** The report for a list of events. */
  function ReportOf(changes: seq<ChangeEvent>, path: string): (r: BreakingReport)
    ensures r.file == path && r.changes == changes
    ensures r.breakingChange <==> |r.changes| > 0
    ensures r.breakingChange <==> r.severity != NoSeverity
    ensures !r.breakingChange ==> r.details == NoBreakingDetails
    ensures r.breakingChange ==> r.details == Join(Descriptions(r.changes), "; ")
  {
    BreakingReport(
      |changes| > 0,
      if |changes| > 0 then Join(Descriptions(changes), "; ") else NoBreakingDetails,
      OverallSeverity(changes),
      changes,
      path)
  }

  /** The highest severity rank among the events (0 for none). */
  function MaxRank(changes: seq<ChangeEvent>): nat
    decreases |changes|
  {
    if |changes| == 0 then 0
    else
      var rest := MaxRank(changes[1..]);
      if changes[0].severity.Rank() > rest then changes[0].severity.Rank() else rest
  }

  lemma {:induction false} MaxRankBounds(changes: seq<ChangeEvent>)
    ensures forall e | e in changes :: e.severity.Rank() <= MaxRank(changes)
    ensures |changes| > 0 ==> exists e | e in changes :: e.severity.Rank() == MaxRank(changes)
    ensures |changes| == 0 ==> MaxRank(changes) == 0
    decreases |changes|
  {
    if |changes| > 0 {
      MaxRankBounds(changes[1..]);
      assert forall e | e in changes :: e == changes[0] || e in changes[1..];
    }
  }

  /** The report's severity is the highest event severity; since every event
      is high or medium, "low" never occurs. */
  lemma SeverityIsMaximum(oldContent: string, newContent: string, path: string, parser: Parser)
    ensures var r := DetectBreakingChanges(oldContent, newContent, path, parser);
      && (|r.changes| > 0 ==> r.severity.Rank() == MaxRank(r.changes))
      && r.severity != Low
  {
    EventSeverities(oldContent, newContent, path, parser);
    SeverityOfEvents(BreakingEvents(oldContent, newContent, path, parser), path);
  }

  lemma SeverityOfEvents(changes: seq<ChangeEvent>, path: string)
    requires forall e | e in changes :: e.severity == High || e.severity == Medium
    ensures var r := ReportOf(changes, path);
      && (|r.changes| > 0 ==> r.severity.Rank() == MaxRank(r.changes))
      && r.severity != Low
  {
    MaxRankBounds(changes);
  }

  lemma EventSeverities(oldContent: string, newContent: string, path: string, parser: Parser)
    ensures forall e | e in BreakingEvents(oldContent, newContent, path, parser) ::
      e.severity == High || e.severity == Medium
  {
  }

  /** Four groups of uniform kinds, concatenated in group order, are sorted
      by group. */
  lemma GroupsInOrder(a: seq<ChangeEvent>, b: seq<ChangeEvent>, c: seq<ChangeEvent>, d: seq<ChangeEvent>)
    requires forall e | e in a :: e.kind.Group() == 0
    requires forall e | e in b :: e.kind.Group() == 1
    requires forall e | e in c :: e.kind.Group() == 2
    requires forall e | e in d :: e.kind.Group() == 3
    ensures var changes := a + b + c + d;
      forall i, j | 0 <= i < j < |changes| :: changes[i].kind.Group() <= changes[j].kind.Group()
  {
    var changes := a + b + c + d;
    forall k | 0 <= k < |changes|
      ensures changes[k].kind.Group() ==
        (if k < |a| then 0 else if k < |a| + |b| then 1 else if k < |a| + |b| + |c| then 2 else 3)
    {
      if k < |a| {
        assert changes[k] == a[k] && a[k] in a;
      } else if k < |a| + |b| {
        assert changes[k] == b[k - |a|] && b[k - |a|] in b;
      } else if k < |a| + |b| + |c| {
        assert changes[k] == c[k - |a| - |b|] && c[k - |a| - |b|] in c;
      } else {
        assert changes[k] == d[k - |a| - |b| - |c|] && d[k - |a| - |b| - |c|] in d;
      }
    }
  }

  /** Events come grouped: removed functions, changed signatures, removed
      classes, removed public methods. */
  lemma EventsInGroupOrder(oldContent: string, newContent: string, path: string, parser: Parser)
    ensures var changes := DetectBreakingChanges(oldContent, newContent, path, parser).changes;
      forall i, j | 0 <= i < j < |changes| :: changes[i].kind.Group() <= changes[j].kind.Group()
  {
  }

  /** Each event list holds events of its own group only. */
  lemma EventGroups(
    removed: seq<string>, shared: seq<string>, oldSigs: seq<FunctionSignature>, newSigs: seq<FunctionSignature>,
    classes: seq<string>, oldContent: string, newContent: string, path: string)
    ensures forall e | e in RemovedFunctionEvents(removed, path) :: e.kind.Group() == 0 && e.severity == High
    ensures forall e | e in SignatureEvents(shared, oldSigs, newSigs, path) :: e.kind.Group() == 1 && e.severity == High
    ensures forall e | e in ClassEvents(classes, path) :: e.kind.Group() == 2 && e.severity == High
    ensures forall e | e in MethodEvents(oldContent, newContent) :: e.kind.Group() == 3 && e.severity == Medium
  {
  }

  /** A function is reported removed exactly when the old text defines a
      function of that name and the new text does not. */
  lemma RemovedFunctionReported(oldContent: string, newContent: string, path: string, parser: Parser, m: string)
    ensures FunctionRemovedEvent(m, path) in DetectBreakingChanges(oldContent, newContent, path, parser).changes
      <==> ((exists s | s in ExtractSignatures(oldContent, parser) :: s.name == m)
            && !(exists s | s in ExtractSignatures(newContent, parser) :: s.name == m))
  {
    var oldSigs := ExtractSignatures(oldContent, parser);
    var newSigs := ExtractSignatures(newContent, parser);
    var oldNames := NameSet(oldSigs);
    var newNames := NameSet(newSigs);
    var a := RemovedFunctionEvents(Minus(oldNames, newNames), path);
    var b := SignatureEvents(Filter(oldNames, (x: string) => x in newNames), oldSigs, newSigs, path);
    var c := ClassEvents(Minus(ExtractClasses(oldContent, parser), ExtractClasses(newContent, parser)), path);
    var d := MethodEvents(oldContent, newContent);
    assert DetectBreakingChanges(oldContent, newContent, path, parser).changes == a + b + c + d;
    var e := FunctionRemovedEvent(m, path);
    assert e !in b && e !in c && e !in d;
  }

  /** A function both versions define gets a "signature_changed" event when
      its last definitions are incompatible, and only such functions do. */
  lemma SignatureChangeReported(oldContent: string, newContent: string, path: string, parser: Parser, m: string)
    ensures var oldSigs := ExtractSignatures(oldContent, parser);
      var newSigs := ExtractSignatures(newContent, parser);
      var changes := DetectBreakingChanges(oldContent, newContent, path, parser).changes;
      && (SignatureEventFor(m, oldSigs, newSigs, path).Some? ==> SignatureEventFor(m, oldSigs, newSigs, path).value in changes)
      && (forall e | e in changes && e.kind == SignatureChanged ::
            exists x | x in NameSet(oldSigs) :: SignatureEventFor(x, oldSigs, newSigs, path) == Some(e))
  {
    var oldSigs := ExtractSignatures(oldContent, parser);
    var newSigs := ExtractSignatures(newContent, parser);
    var oldNames := NameSet(oldSigs);
    var newNames := NameSet(newSigs);
    var common := Filter(oldNames, (x: string) => x in newNames);
    var a := RemovedFunctionEvents(Minus(oldNames, newNames), path);
    var b := SignatureEvents(common, oldSigs, newSigs, path);
    var c := ClassEvents(Minus(ExtractClasses(oldContent, parser), ExtractClasses(newContent, parser)), path);
    var d := MethodEvents(oldContent, newContent);
    assert DetectBreakingChanges(oldContent, newContent, path, parser).changes == a + b + c + d;
    SignatureGroupOnly(a, b, c, d);
    SharedNameEvent(m, oldSigs, newSigs, path);
  }

  /** A signature event for a name lies in the group built from the names
      both versions share. */
  lemma SharedNameEvent(m: string, oldSigs: seq<FunctionSignature>, newSigs: seq<FunctionSignature>, path: string)
    ensures var common := Filter(NameSet(oldSigs), (x: string) => x in NameSet(newSigs));
      SignatureEventFor(m, oldSigs, newSigs, path).Some? ==>
        SignatureEventFor(m, oldSigs, newSigs, path).value in SignatureEvents(common, oldSigs, newSigs, path)
  {
  }

  /** In the grouped event list the signature events are exactly those of
      the second group. */
  lemma SignatureGroupOnly(a: seq<ChangeEvent>, b: seq<ChangeEvent>, c: seq<ChangeEvent>, d: seq<ChangeEvent>)
    requires forall e | e in a :: e.kind == FunctionRemoved
    requires forall e | e in c :: e.kind == ClassRemoved
    requires forall e | e in d :: e.kind == MethodRemoved
    ensures forall e | e in a + b + c + d && e.kind == SignatureChanged :: e in b
    ensures forall e | e in b :: e in a + b + c + d
  {
  }

  /** A class is reported removed exactly when the old text has it and the
      new text does not. */
  lemma RemovedClassReported(oldContent: string, newContent: string, path: string, parser: Parser, m: string)
    ensures ClassRemovedEvent(m, path) in DetectBreakingChanges(oldContent, newContent, path, parser).changes
      <==> m in ExtractClasses(oldContent, parser) && m !in ExtractClasses(newContent, parser)
  {
    var oldSigs := ExtractSignatures(oldContent, parser);
    var newSigs := ExtractSignatures(newContent, parser);
    var oldNames := NameSet(oldSigs);
    var newNames := NameSet(newSigs);
    var a := RemovedFunctionEvents(Minus(oldNames, newNames), path);
    var b := SignatureEvents(Filter(oldNames, (x: string) => x in newNames), oldSigs, newSigs, path);
    var c := ClassEvents(Minus(ExtractClasses(oldContent, parser), ExtractClasses(newContent, parser)), path);
    var d := MethodEvents(oldContent, newContent);
    assert DetectBreakingChanges(oldContent, newContent, path, parser).changes == a + b + c + d;
    var e := ClassRemovedEvent(m, path);
    assert e !in a && e !in b && e !in d;
  }

  /** A public method is reported removed exactly when the old text has a
      public `def` of that name and the new text does not; the test is the
      `def` pattern, whatever the parser says. */
  lemma RemovedMethodReported(oldContent: string, newContent: string, path: string, parser: Parser, m: string)
    ensures MethodRemovedEvent(m) in DetectBreakingChanges(oldContent, newContent, path, parser).changes
      <==> m in PublicDefNames(oldContent) && m !in PublicDefNames(newContent)
  {
    var oldSigs := ExtractSignatures(oldContent, parser);
    var newSigs := ExtractSignatures(newContent, parser);
    var oldNames := NameSet(oldSigs);
    var newNames := NameSet(newSigs);
    var a := RemovedFunctionEvents(Minus(oldNames, newNames), path);
    var b := SignatureEvents(Filter(oldNames, (x: string) => x in newNames), oldSigs, newSigs, path);
    var c := ClassEvents(Minus(ExtractClasses(oldContent, parser), ExtractClasses(newContent, parser)), path);
    var d := MethodEvents(oldContent, newContent);
    assert DetectBreakingChanges(oldContent, newContent, path, parser).changes == a + b + c + d;
    var e := MethodRemovedEvent(m);
    assert e !in a && e !in b && e !in c;
  }

  /** A removed public function is reported twice: once as a removed
      function and once as a removed method. */
  lemma RemovalReportedTwice(oldContent: string, newContent: string, path: string, parser: Parser, m: string)
    ensures var changes := DetectBreakingChanges(oldContent, newContent, path, parser).changes;
      (&& (exists s | s in ExtractSignatures(oldContent, parser) :: s.name == m)
       && (forall s | s in ExtractSignatures(newContent, parser) :: s.name != m)
       && m in PublicDefNames(oldContent) && m !in PublicDefNames(newContent))
      ==> FunctionRemovedEvent(m, path) in changes && MethodRemovedEvent(m) in changes
  {
    RemovedFunctionReported(oldContent, newContent, path, parser, m);
    RemovedMethodReported(oldContent, newContent, path, parser, m);
  }

  /** Shared names with identical signature lists give no signature events. */
  lemma {:induction false} NoSignatureEventsForSameSignatures(names: seq<string>, sigs: seq<FunctionSignature>, path: string)
    ensures SignatureEvents(names, sigs, sigs, path) == []
    decreases |names|
  {
    if |names| > 0 {
      NoSignatureEventsForSameSignatures(names[1..], sigs, path);
      match LastNamed(sigs, names[0])
      case Some(s) => CompareWithItself(s);
      case None =>
    }
  }

  /** Two identical revisions give no events: not breaking, severity "none",
      the no-change details. */
  lemma IdenticalContentsNotBreaking(content: string, path: string, parser: Parser)
    ensures var r := DetectBreakingChanges(content, content, path, parser);
      && r.changes == []
      && !r.breakingChange
      && r.severity == NoSeverity
      && r.details == NoBreakingDetails
  {
    var sigs := ExtractSignatures(content, parser);
    var names := NameSet(sigs);
    NoSignatureEventsForSameSignatures(Filter(names, (x: string) => x in names), sigs, path);
    MinusSelf(names);
    MinusSelf(ExtractClasses(content, parser));
    MinusSelf(PublicDefNames(content));
  }
}
