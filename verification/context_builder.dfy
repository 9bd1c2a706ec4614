/** Serialisation of retrieved snippets into the prompt context: each snippet
    gets a numbered heading naming the file it came from, found by four
    patterns over the start of its text, and is then fenced as a code block. */
module ContextBuilder {
  import opened Wrappers
  import opened Text
  import opened SourcePatterns
  import Retriever

  // ---------------------------------------------------------------------------
  // Line helpers for the lazy `(.+?)(?:\n|$)` tail
  // ---------------------------------------------------------------------------

  /** The largest position in `[lo, hi)` whose character is not a line break. */
  function LastNonNewline(s: string, lo: nat, hi: nat): (r: Option<nat>)
    requires lo <= hi <= |s|
    ensures r.Some? ==> lo <= r.value < hi && s[r.value] != '\n'
    ensures r.Some? ==> forall c | r.value < c < hi :: s[c] == '\n'
    ensures r.None? ==> forall c | lo <= c < hi :: s[c] == '\n'
    decreases hi - lo
  {
    if hi == lo then None
    else if s[hi - 1] != '\n' then Some(hi - 1)
    else LastNonNewline(s, lo, hi - 1)
  }

  /** The first line break at or after `i`, or the end of the text. */
  function LineEnd(s: string, i: nat): (m: nat)
    requires i <= |s|
    ensures i <= m <= |s|
    ensures forall k | i <= k < m :: s[k] != '\n'
    ensures m < |s| ==> s[m] == '\n'
    decreases |s| - i
  {
    if i < |s| && s[i] != '\n' then LineEnd(s, i + 1) else i
  }

  /** A capture that lies on one line of the text. */
  predicate OnOneLine(s: string, h: Hit) {
    |h.capture| > 0 && '\n' !in h.capture && Contains(s, h.capture)
  }

  /** `\s*(.+?)(?:\n|$)` after the greedy `\s*` has run over `s[lo..e]`: the
      engine gives back whitespace until `.` can match, then extends the lazy
      group up to the next line break or the end of the text. */
  function LazyLine(s: string, lo: nat, e: nat): (r: Option<Hit>)
    requires lo <= e <= |s|
    ensures r.Some? ==> OnOneLine(s, r.value)
    ensures r.None? <==> forall c | lo <= c < Min(e + 1, |s|) :: s[c] == '\n'
  {
    match LastNonNewline(s, lo, Min(e + 1, |s|))
    case None => None
    case Some(c) =>
      var m := LineEnd(s, c + 1);
      var cap := s[c..m];
      assert OccursAt(s, cap, c);
      assert '\n' !in cap by {
        forall k | 0 <= k < |cap| ensures cap[k] != '\n' {
          assert cap[k] == s[c + k];
        }
      }
      Some(Hit(cap, if m < |s| then m + 1 else m))
  }

  // ---------------------------------------------------------------------------
  // The four path patterns, in priority order
  // ---------------------------------------------------------------------------

  /** `#\s*[Ff]ile:\s*(.+?)(?:\n|$)` tried at `i`. */
  function MarkerAt(s: string, i: nat): (r: Option<Hit>)
    ensures r.Some? ==> OnOneLine(s, r.value)
  {
    if i < |s| && s[i] == '#' then
      var j := SkipSpaces(s, i + 1);
      if j + 5 <= |s| && (s[j] == 'F' || s[j] == 'f') && s[j + 1..j + 5] == "ile:" then
        LazyLine(s, j + 5, SkipSpaces(s, j + 5))
      else None
    else None
  }

  /** `[Ff]ile\s*path:\s*(.+?)(?:\n|$)` tried at `i`. */
  function FilePathAt(s: string, i: nat): (r: Option<Hit>)
    ensures r.Some? ==> OnOneLine(s, r.value)
  {
    if i + 4 <= |s| && (s[i] == 'F' || s[i] == 'f') && s[i + 1..i + 4] == "ile" then
      var j := SkipSpaces(s, i + 4);
      if j + 5 <= |s| && s[j..j + 5] == "path:" then
        LazyLine(s, j + 5, SkipSpaces(s, j + 5))
      else None
    else None
  }

  /** `Source:\s*(.+?)(?:\n|$)` tried at `i`. */
  function SourceAt(s: string, i: nat): (r: Option<Hit>)
    ensures r.Some? ==> OnOneLine(s, r.value)
  {
    if i + 7 <= |s| && s[i..i + 7] == "Source:" then
      LazyLine(s, i + 7, SkipSpaces(s, i + 7))
    else None
  }

  /** The alternatives of `\.(?:py|js|ts|md|txt|json|yaml|yml)`, in the order
      the engine tries them: `a.json` matches as `a.js`. */
  const Extensions: seq<string> := ["py", "js", "ts", "md", "txt", "json", "yaml", "yml"]

  /** Ends with a dot and one of `exts`. */
  predicate EndsWithExtension(t: string, exts: seq<string>) {
    exists w | w in exts :: |t| > |w| && t[|t| - |w| - 1..] == "." + w
  }

  /** Ends with a dot and one of the extensions the pattern names. */
  predicate HasKnownExtension(t: string) {
    EndsWithExtension(t, Extensions)
  }

  /** The first extension of `exts` that follows a dot at `p`. */
  function DottedExtensionAt(s: string, p: nat, exts: seq<string>): (r: Option<string>)
    requires p <= |s|
    ensures r.Some? ==> r.value in exts && p + 1 + |r.value| <= |s|
    ensures r.Some? ==> s[p..p + 1 + |r.value|] == "." + r.value
    decreases |exts|
  {
    if |exts| == 0 || p >= |s| || s[p] != '.' then None
    else if p + 1 + |exts[0]| <= |s| && s[p + 1..p + 1 + |exts[0]|] == exts[0] then
      Some(exts[0])
    else
      var r := DottedExtensionAt(s, p, exts[1..]);
      assert forall w | w in exts[1..] :: w in exts;
      r
  }

  /** The lazy `[^\n]+?` from `i` has grown to `p`; try the extension there,
      otherwise grow it by one character if that is not a line break. */
  function ExtensionPathFrom(s: string, i: nat, p: nat, exts: seq<string>): (r: Option<Hit>)
    requires i < p <= |s|
    requires forall k | i <= k < p :: s[k] != '\n'
    requires forall w | w in exts :: '\n' !in w
    ensures r.Some? ==> i < r.value.end <= |s| && r.value.capture == s[i..r.value.end]
    ensures r.Some? ==> '\n' !in r.value.capture && EndsWithExtension(r.value.capture, exts)
    decreases |s| - p
  {
    match DottedExtensionAt(s, p, exts)
    case Some(w) =>
      var end := p + 1 + |w|;
      var cap := s[i..end];
      NoBreakInSlice(s, i, p);
      assert s[p..end] == "." + w;
      assert '\n' !in s[p..end] by {
        forall k | 0 <= k < |s[p..end]| ensures s[p..end][k] != '\n' {
          if k > 0 { assert s[p..end][k] == w[k - 1]; }
        }
      }
      assert cap == s[i..p] + s[p..end];
      assert cap[|cap| - |w| - 1..] == s[p..end];
      Some(Hit(cap, end))
    case None =>
      if p < |s| && s[p] != '\n' then ExtensionPathFrom(s, i, p + 1, exts) else None
  }

  lemma ExtensionsOnOneLine()
    ensures forall w | w in Extensions :: '\n' !in w
  {
  }

  lemma NoBreakInSlice(s: string, i: nat, p: nat)
    requires i <= p <= |s|
    requires forall k | i <= k < p :: s[k] != '\n'
    ensures '\n' !in s[i..p]
  {
    forall k | 0 <= k < p - i ensures s[i..p][k] != '\n' {
      assert s[i..p][k] == s[i + k];
    }
  }

  /** `([^\n]+?\.(?:py|js|ts|md|txt|json|yaml|yml))` tried at `i`. */
  function ExtensionPathAt(s: string, i: nat): (r: Option<Hit>)
    ensures r.Some? ==> OnOneLine(s, r.value) && HasKnownExtension(r.value.capture)
  {
    if i < |s| && s[i] != '\n' then
      ExtensionsOnOneLine();
      var r := ExtensionPathFrom(s, i, i + 1, Extensions);
      assert r.Some? ==> OccursAt(s, r.value.capture, i);
      r
    else None
  }

  // ---------------------------------------------------------------------------
  // `_extract_file_path`
  // ---------------------------------------------------------------------------

  /** How much of a snippet the patterns look at. */
  const Window := 200

  /** The stripped capture of the first pattern that matches anywhere in the
      first 200 characters; the patterns are tried in a fixed order. */
  function ExtractFilePath(text: string): (r: Option<string>)
    ensures var t := Take(text, Window);
      && (Search(t, 0, MarkerAt).Some? ==> r == Some(Strip(Search(t, 0, MarkerAt).value.hit.capture)))
      && (Search(t, 0, MarkerAt).None? && Search(t, 0, FilePathAt).Some? ==>
            r == Some(Strip(Search(t, 0, FilePathAt).value.hit.capture)))
      && (Search(t, 0, MarkerAt).None? && Search(t, 0, FilePathAt).None? && Search(t, 0, SourceAt).Some? ==>
            r == Some(Strip(Search(t, 0, SourceAt).value.hit.capture)))
      && (Search(t, 0, MarkerAt).None? && Search(t, 0, FilePathAt).None? && Search(t, 0, SourceAt).None?
          && Search(t, 0, ExtensionPathAt).Some? ==>
            r == Some(Strip(Search(t, 0, ExtensionPathAt).value.hit.capture)))
    ensures var t := Take(text, Window);
      r.None? <==>
        && Search(t, 0, MarkerAt).None?
        && Search(t, 0, FilePathAt).None?
        && Search(t, 0, SourceAt).None?
        && Search(t, 0, ExtensionPathAt).None?
  {
    var t := Take(text, Window);
    match Search(t, 0, MarkerAt)
    case Some(f) => Some(Strip(f.hit.capture))
    case None =>
      match Search(t, 0, FilePathAt)
      case Some(f) => Some(Strip(f.hit.capture))
      case None =>
        match Search(t, 0, SourceAt)
        case Some(f) => Some(Strip(f.hit.capture))
        case None =>
          match Search(t, 0, ExtensionPathAt)
          case Some(f) => Some(Strip(f.hit.capture))
          case None => None
  }

  /** An extracted path is a single line, taken from the first 200 characters
      of the snippet, with no whitespace at either end. */
  lemma ExtractedPathShape(text: string)
    ensures ExtractFilePath(text).Some? ==>
      var p := ExtractFilePath(text).value;
      && '\n' !in p
      && Contains(Take(text, Window), p)
      && (|p| > 0 ==> !IsSpace(p[0]) && !IsSpace(p[|p| - 1]))
  {
    if ExtractFilePath(text).None? {
      return;
    }
    var t := Take(text, Window);
    var f: Found;
    if Search(t, 0, MarkerAt).Some? {
      f := Search(t, 0, MarkerAt).value;
    } else if Search(t, 0, FilePathAt).Some? {
      f := Search(t, 0, FilePathAt).value;
    } else if Search(t, 0, SourceAt).Some? {
      f := Search(t, 0, SourceAt).value;
    } else {
      f := Search(t, 0, ExtensionPathAt).value;
    }
    assert OnOneLine(t, f.hit);
    StripContained(f.hit.capture);
    ContainsTransitive(t, f.hit.capture, Strip(f.hit.capture));
    StripHasNoOuterSpace(f.hit.capture);
  }

  /** Only the first 200 characters decide the path. */
  lemma PathFromWindowOnly(a: string, b: string)
    requires Take(a, Window) == Take(b, Window)
    ensures ExtractFilePath(a) == ExtractFilePath(b)
  {
  }

  /** `s.strip()` is a piece of `s`, so it holds no character `s` lacks. */
  lemma StripContained(s: string)
    ensures Contains(s, Strip(s))
    ensures forall c | c in Strip(s) :: c in s
  {
    var l := LStrip(s);
    var r := RStrip(l);
    var d := |s| - |l|;
    assert s[d..d + |r|] == l[..|r|];
    assert OccursAt(s, r, d);
    forall c | c in r
      ensures c in s
    {
      var k :| 0 <= k < |r| && r[k] == c;
      assert s[d + k] == c;
    }
  }

  lemma ContainsTransitive(a: string, b: string, c: string)
    requires Contains(a, b) && Contains(b, c)
    ensures Contains(a, c)
  {
    var i :| 0 <= i <= |a| - |b| && OccursAt(a, b, i);
    var j :| 0 <= j <= |b| - |c| && OccursAt(b, c, j);
    assert a[i..i + |b|] == b;
    forall k | 0 <= k < |c|
      ensures a[i + j + k] == c[k]
    {
      assert b[j + k] == c[k];
      assert a[i..i + |b|][j + k] == a[i + j + k];
    }
    assert a[i + j..i + j + |c|] == c;
    assert OccursAt(a, c, i + j);
  }

  // ---------------------------------------------------------------------------
  // `build_prompt_context`
  // ---------------------------------------------------------------------------

  const Header := "Here are the most relevant snippets from the LIVE codebase:"

  /** The heading of snippet number `n`. */
  function Heading(n: nat, path: string): string {
    "\nFILE #" + NatToString(n) + ": " + path
  }

  /** A snippet's text as a fenced code block. */
  function Fenced(text: string): string {
    "```\n" + text + "\n```"
  }

  /** The path shown for snippet number `n`: the extracted one, unless there is
      none or it is empty, in which case a numbered placeholder. */
  function DocPath(text: string, n: nat): (r: string)
    ensures r != ""
    ensures match ExtractFilePath(text)
      case Some(p) => r == (if p != "" then p else "Source #" + NatToString(n))
      case None => r == "Source #" + NatToString(n)
  {
    match ExtractFilePath(text)
    case Some(p) => if p != "" then p else "Source #" + NatToString(n)
    case None => "Source #" + NatToString(n)
  }

  /** The stripped text of every snippet. */
  function Texts(docs: seq<Retriever.Snippet>): (r: seq<string>)
    ensures |r| == |docs|
    ensures forall k | 0 <= k < |docs| :: r[k] == Strip(Retriever.TextOf(docs[k]))
  {
    seq(|docs|, k requires 0 <= k < |docs| => Strip(Retriever.TextOf(docs[k])))
  }

  /** The heading and the fenced text of every snippet, numbered from `n`,
      whatever the rule `pathOf` that names them. */
  function Blocks(texts: seq<string>, n: nat, pathOf: (string, nat) -> string): (r: seq<string>)
    ensures |r| == 2 * |texts|
    ensures forall k | 0 <= k < |texts| ::
      r[2 * k] == Heading(n + k, pathOf(texts[k], n + k)) && r[2 * k + 1] == Fenced(texts[k])
    decreases |texts|
  {
    if |texts| == 0 then []
    else [Heading(n, pathOf(texts[0], n)), Fenced(texts[0])] + Blocks(texts[1..], n + 1, pathOf)
  }

  /** The parts that are joined: the header, then two parts per snippet,
      numbered from 1. */
  function ContextParts(docs: seq<Retriever.Snippet>): (r: seq<string>)
    ensures |r| == 1 + 2 * |docs| && r[0] == Header
    ensures forall k | 0 <= k < |docs| ::
      var text := Strip(Retriever.TextOf(docs[k]));
      r[2 * k + 1] == Heading(k + 1, DocPath(text, k + 1)) && r[2 * k + 2] == Fenced(text)
  {
    var texts := Texts(docs);
    var b := Blocks(texts, 1, DocPath);
    assert forall k | 0 <= k < |b| :: ([Header] + b)[k + 1] == b[k];
    [Header] + b
  }

  /** No snippets give the empty string; otherwise the parts joined by line
      breaks, which begin with the header. */
  function BuildPromptContext(docs: seq<Retriever.Snippet>): (r: string)
    ensures docs == [] ==> r == ""
    ensures docs != [] ==> r == Join(ContextParts(docs), "\n") && StartsWith(r, Header)
  {
    if |docs| == 0 then ""
    else
      JoinStartsWithFirst(ContextParts(docs), "\n");
      Join(ContextParts(docs), "\n")
  }

  /** The context is empty exactly when there are no snippets. */
  lemma EmptyContextIff(docs: seq<Retriever.Snippet>)
    ensures BuildPromptContext(docs) == "" <==> docs == []
  {
    if docs != [] {
      var r := BuildPromptContext(docs);
      assert r[..|Header|] == Header;
    }
  }

  /** Every snippet appears in the context under its numbered heading, its
      stripped text inside a code fence. */
  lemma EverySnippetShown(docs: seq<Retriever.Snippet>, k: nat)
    requires k < |docs|
    ensures var text := Strip(Retriever.TextOf(docs[k]));
      && Contains(BuildPromptContext(docs), Heading(k + 1, DocPath(text, k + 1)))
      && Contains(BuildPromptContext(docs), Fenced(text))
  {
    var parts := ContextParts(docs);
    var text := Strip(Retriever.TextOf(docs[k]));
    assert BuildPromptContext(docs) == Join(parts, "\n");
    JoinContainsParts(parts, "\n", 2 * k + 1);
    JoinContainsParts(parts, "\n", 2 * k + 2);
    assert parts[2 * k + 1] == Heading(k + 1, DocPath(text, k + 1));
    assert parts[2 * k + 2] == Fenced(text);
  }
}
