/** The filename heuristics of the vector-store retriever: spotting a target
    file in a question, keeping only the snippets that mention it, and choosing
    which results to return. The vector-store client is a function parameter. */
module Retriever {
  import opened Wrappers
  import opened Text
  import opened SourcePatterns

  // ---------------------------------------------------------------------------
  // Pattern 1: `\b([a-zA-Z0-9_\-]+\.[a-zA-Z0-9]+)\b`
  // ---------------------------------------------------------------------------

  predicate IsAlnum(c: char) {
    IsLetter(c) || IsDigit(c)
  }

  /** The class `[a-zA-Z0-9_\-]`. */
  predicate IsNameChar(c: char) {
    IsAlnum(c) || c == '_' || c == '-'
  }

  /** End of the run of name characters starting at `i`. */
  function NameEnd(s: string, i: nat): (j: nat)
    requires i <= |s|
    ensures i <= j <= |s|
    ensures forall k | i <= k < j :: IsNameChar(s[k])
    ensures j < |s| ==> !IsNameChar(s[j])
    decreases |s| - i
  {
    if i < |s| && IsNameChar(s[i]) then NameEnd(s, i + 1) else i
  }

  /** End of the run of letters and digits starting at `i`. */
  function AlnumEnd(s: string, i: nat): (j: nat)
    requires i <= |s|
    ensures i <= j <= |s|
    ensures forall k | i <= k < j :: IsAlnum(s[k])
    ensures j < |s| ==> !IsAlnum(s[j])
    decreases |s| - i
  {
    if i < |s| && IsAlnum(s[i]) then AlnumEnd(s, i + 1) else i
  }

  /** `name.ext`: a non-empty run of name characters, one dot, then a
      non-empty run of letters and digits. */
  ghost predicate FileNameShape(t: string) {
    exists j | 0 < j < |t| - 1 ::
      && t[j] == '.'
      && (forall k | 0 <= k < j :: IsNameChar(t[k]))
      && (forall k | j < k < |t| :: IsAlnum(t[k]))
  }

  /** Exactly one dot. */
  predicate OneDot(t: string) {
    && '.' in t
    && forall a, b | 0 <= a < b < |t| :: !(t[a] == '.' && t[b] == '.')
  }

  /** Pattern 1 tried at `i`. Neither `+` can give anything back usefully: the
      name run cannot end on a dot earlier, and an extension cut short ends
      between two word characters, where `\b` fails. So the match, if any, is
      the maximal name run, the dot, and the maximal letter/digit run. */
  function FileTokenAt(s: string, i: nat): (r: Option<Hit>)
    ensures r.Some? ==> i < r.value.end <= |s| && r.value.capture == s[i..r.value.end]
    ensures r.Some? ==> FileNameShape(r.value.capture)
    ensures r.Some? ==> AtWordBoundary(s, i) && AtWordBoundary(s, r.value.end)
  {
    if i < |s| && AtWordBoundary(s, i) && IsNameChar(s[i]) then
      var j := NameEnd(s, i);
      if j < |s| && s[j] == '.' then
        var k := AlnumEnd(s, j + 1);
        if k > j + 1 && AtWordBoundary(s, k) then
          var t := s[i..k];
          assert t[j - i] == '.';
          assert FileNameShape(t);
          Some(Hit(t, k))
        else None
      else None
    else None
  }

  /** Every string of that shape has exactly one dot and no slash. */
  lemma FileNameShapeChars(t: string)
    requires FileNameShape(t)
    ensures OneDot(t) && '/' !in t
  {
    var j :| 0 < j < |t| - 1 && t[j] == '.'
      && (forall k | 0 <= k < j :: IsNameChar(t[k]))
      && (forall k | j < k < |t| :: IsAlnum(t[k]));
    assert t[j] == '.';
    forall a, b | 0 <= a < b < |t|
      ensures !(t[a] == '.' && t[b] == '.')
    {
      if a < j { assert IsNameChar(t[a]); }
      else if a > j { assert IsAlnum(t[a]); }
      else { assert IsAlnum(t[b]); }
    }
    forall k | 0 <= k < |t|
      ensures t[k] != '/'
    {
      if k < j { assert IsNameChar(t[k]); }
      else if k > j { assert IsAlnum(t[k]); }
    }
  }

  /** `re.findall(pattern1, query)`. */
  function FileTokens(q: string): seq<string> {
    FindAll(q, 0, FileTokenAt)
  }

  /** Every token found has the `name.ext` shape and occurs in the query. */
  lemma FileTokensShape(q: string, t: string)
    requires t in FileTokens(q)
    ensures FileNameShape(t) && OneDot(t) && '/' !in t
    ensures Contains(q, t)
  {
    FindAllCaptures(q, 0, FileTokenAt, t);
    var p :| 0 <= p <= |q| && FileTokenAt(q, p).Some? && FileTokenAt(q, p).value.capture == t;
    TokenAtShape(q, p);
  }

  /** A token found at `p` has the `name.ext` shape and occurs at `p`. */
  lemma TokenAtShape(q: string, p: nat)
    requires FileTokenAt(q, p).Some?
    ensures var t := FileTokenAt(q, p).value.capture;
      FileNameShape(t) && OneDot(t) && '/' !in t && Contains(q, t)
  {
    var h := FileTokenAt(q, p).value;
    FileNameShapeChars(h.capture);
    assert OccursAt(q, h.capture, p);
  }

  /** The false positives the retriever skips, compared in lower case. */
  const ExcludedNames: set<string> := {"claude.ai", "openai.com", "v1.0", "api.key", "127.0.0.1"}

  predicate Kept(t: string) {
    Lower(t) !in ExcludedNames && '/' !in t
  }

  /** The tokens that survive the exclusion filter, in query order. */
  function KeptTokens(q: string): seq<string> {
    Filter(FileTokens(q), Kept)
  }

  /** The slash test never removes a token: no token can contain a slash. */
  lemma SlashTestRedundant(q: string)
    ensures KeptTokens(q) == Filter(FileTokens(q), (t: string) => Lower(t) !in ExcludedNames)
  {
    forall t | t in FileTokens(q)
      ensures '/' !in t
    {
      FileTokensShape(q, t);
    }
    SlashTestRedundantFrom(FileTokens(q));
  }

  lemma {:induction false} SlashTestRedundantFrom(ts: seq<string>)
    requires forall t | t in ts :: '/' !in t
    ensures Filter(ts, Kept) == Filter(ts, (t: string) => Lower(t) !in ExcludedNames)
    decreases |ts|
  {
    if |ts| > 0 {
      assert ts[0] in ts;
      assert forall t | t in ts[1..] :: t in ts;
      SlashTestRedundantFrom(ts[1..]);
    }
  }

  /** The loopback address in the exclusion set can never be what it is
      compared against: a token has exactly one dot, the address has three. In
      "127.0.0.1" the pattern finds "127.0" and "0.1" instead. */
  lemma LoopbackExclusionUnused(q: string, t: string)
    requires t in FileTokens(q)
    ensures Lower(t) != "127.0.0.1"
  {
    FileTokensShape(q, t);
    if |t| == 9 {
      LowerKeepsDot(t, 3);
      LowerKeepsDot(t, 5);
    }
  }

  lemma LowerKeepsDot(t: string, k: nat)
    requires k < |t|
    ensures Lower(t)[k] == '.' <==> t[k] == '.'
  {
  }

  // ---------------------------------------------------------------------------
  // Pattern 2: `\b(readme|license|makefile|dockerfile|package)\b`, IGNORECASE
  // ---------------------------------------------------------------------------

  const Keywords: seq<string> := ["readme", "license", "makefile", "dockerfile", "package"]

  /** Keyword `w` matches at `i`, whole-word at its end. */
  predicate KeywordMatchesAt(s: string, i: nat, w: string)
    requires i <= |s|
  {
    |w| > 0 && i + |w| <= |s| && Lower(s[i..i + |w|]) == w && AtWordBoundary(s, i + |w|)
  }

  /** The first alternative of `kws`, from the `from`-th on, that matches at `i`. */
  function KeywordFrom(s: string, i: nat, kws: seq<string>, from: nat): (r: Option<Hit>)
    requires i <= |s| && from <= |kws|
    ensures r.Some? ==> i < r.value.end <= |s| && r.value.capture == s[i..r.value.end]
    ensures r.Some? ==> Lower(r.value.capture) in kws && AtWordBoundary(s, r.value.end)
    ensures r.None? ==> forall k | from <= k < |kws| :: !KeywordMatchesAt(s, i, kws[k])
    decreases |kws| - from
  {
    if from == |kws| then None
    else if KeywordMatchesAt(s, i, kws[from]) then
      Some(Hit(s[i..i + |kws[from]|], i + |kws[from]|))
    else KeywordFrom(s, i, kws, from + 1)
  }

  /** Pattern 2 tried at `i`. */
  function KeywordAt(s: string, i: nat): (r: Option<Hit>)
    ensures r.Some? ==> i < r.value.end <= |s| && r.value.capture == s[i..r.value.end]
    ensures r.Some? ==> Lower(r.value.capture) in Keywords
    ensures r.Some? ==> AtWordBoundary(s, i) && AtWordBoundary(s, r.value.end)
  {
    if i <= |s| && AtWordBoundary(s, i) then KeywordFrom(s, i, Keywords, 0) else None
  }

  /** The file name guessed from a keyword: README gets its usual extension. */
  function GuessName(word: string): (r: string)
    ensures Lower(word) == "readme" ==> r == "README.md"
    ensures Lower(word) != "readme" ==> r == Upper(Lower(word))
  {
    var name := Upper(word);
    UpperOfLower(word);
    if name == "README" then "README.md" else name
  }

  /** Upper-casing ignores how the text was cased before: a keyword matched
      in any case upper-cases to the upper-cased keyword. */
  lemma UpperOfLower(word: string)
    ensures Upper(Lower(word)) == Upper(word)
  {
    forall k | 0 <= k < |word|
      ensures Upper(Lower(word))[k] == Upper(word)[k]
    {
      assert Lower(word)[k] == LowerChar(word[k]);
    }
  }

  // ---------------------------------------------------------------------------
  // `_extract_filename`
  // ---------------------------------------------------------------------------

  predicate HasKeptToken(q: string) {
    |KeptTokens(q)| > 0
  }

  /** The first file name token that is not excluded; failing that a whole-word
      keyword, turned into a file name; failing that nothing. */
  function ExtractFilename(q: string): (r: Option<string>)
    ensures HasKeptToken(q) ==> r == Some(KeptTokens(q)[0])
    ensures HasKeptToken(q) ==> r.Some? && Lower(r.value) !in ExcludedNames
    ensures !HasKeptToken(q) ==> (r.Some? <==> Search(q, 0, KeywordAt).Some?)
    ensures !HasKeptToken(q) && r.Some? ==>
      var w := Lower(Search(q, 0, KeywordAt).value.hit.capture);
      && w in Keywords
      && (w == "readme" ==> r.value == "README.md")
      && (w != "readme" ==> r.value == Upper(w))
  {
    var kept := KeptTokens(q);
    if |kept| > 0 then
      assert kept[0] in kept;
      Some(kept[0])
    else
      match Search(q, 0, KeywordAt)
      case Some(f) => Some(GuessName(f.hit.capture))
      case None => None
  }

  /** A detected token has the `name.ext` shape (one dot, no slash), is not
      one of the excluded names, and occurs in the query. */
  lemma ExtractedTokenShape(q: string)
    requires HasKeptToken(q)
    ensures var r := ExtractFilename(q).value;
      FileNameShape(r) && OneDot(r) && '/' !in r && Lower(r) !in ExcludedNames && Contains(q, r)
  {
    var kept := KeptTokens(q);
    assert kept[0] in kept;
    FileTokensShape(q, kept[0]);
  }

  /** Nothing is detected exactly when there is neither a kept token nor a
      whole-word keyword anywhere in the query. */
  lemma NoFilenameIff(q: string)
    ensures ExtractFilename(q).None? <==>
      KeptTokens(q) == [] && forall p | 0 <= p <= |q| :: KeywordAt(q, p).None?
  {
  }

  // ---------------------------------------------------------------------------
  // `_filter_by_filename_in_text`
  // ---------------------------------------------------------------------------

  /** One search result; `text` is absent when the result has no text field. */
  datatype Snippet = Snippet(text: Option<string>, dist: Option<real>)

  /** `result.get('text', '')`. */
  function TextOf(x: Snippet): string {
    x.text.GetOr("")
  }

  /** `s.replace(pat, "")`: every non-overlapping occurrence, scanning left to
      right, removed. */
  function RemoveAll(s: string, pat: string): (r: string)
    requires |pat| > 0
    ensures |r| <= |s|
    ensures !Contains(s, pat) ==> r == s
    decreases |s|
  {
    if |s| == 0 then ""
    else if StartsWith(s, pat) then RemoveAll(s[|pat|..], pat)
    else
      assert !Contains(s, pat) ==> !Contains(s[1..], pat) by {
        if Contains(s[1..], pat) {
          var i :| 0 <= i <= |s[1..]| - |pat| && OccursAt(s[1..], pat, i);
          assert s[i + 1..i + 1 + |pat|] == s[1..][i..i + |pat|];
          assert OccursAt(s, pat, i + 1);
        }
      }
      [s[0]] + RemoveAll(s[1..], pat)
  }

  /** The four tests of the source, on the lower-cased target and text. */
  predicate MentionsTarget(textLower: string, tl: string) {
    || Contains(textLower, tl)
    || Contains(textLower, "\"" + tl + "\"")
    || Contains(textLower, "'" + tl + "'")
    || Contains(textLower, RemoveAll(tl, ".md"))
  }

  function Mentions(target: string): Snippet -> bool {
    (x: Snippet) => MentionsTarget(Lower(TextOf(x)), Lower(target))
  }

  /** The results whose text mentions the target file, in their original order. */
  function FilterByFilename(results: seq<Snippet>, target: string): (r: seq<Snippet>)
    ensures forall x :: x in r <==> x in results && MentionsTarget(Lower(TextOf(x)), Lower(target))
    ensures IsSubsequence(r, results)
  {
    FilterIsSubsequence(results, Mentions(target));
    Filter(results, Mentions(target))
  }

  /** The quoted forms add nothing: a text containing `"t"` or `'t'` contains
      `t`. A result is kept exactly when its text contains the target or the
      target with `.md` removed. */
  lemma MentionsIff(textLower: string, tl: string)
    ensures MentionsTarget(textLower, tl) <==>
      Contains(textLower, tl) || Contains(textLower, RemoveAll(tl, ".md"))
  {
    if Contains(textLower, "\"" + tl + "\"") {
      ContainsPiece("\"", tl, "\"", textLower);
    }
    if Contains(textLower, "'" + tl + "'") {
      ContainsPiece("'", tl, "'", textLower);
    }
  }

  /** A text containing `pre + s + post` contains `s`. */
  lemma ContainsPiece(pre: string, s: string, post: string, t: string)
    requires Contains(t, pre + s + post)
    ensures Contains(t, s)
  {
    var w := pre + s + post;
    var i :| 0 <= i <= |t| - |w| && OccursAt(t, w, i);
    assert t[i..i + |w|] == w;
    forall k | 0 <= k < |s|
      ensures t[i + |pre| + k] == s[k]
    {
      assert t[i..i + |w|][|pre| + k] == w[|pre| + k];
    }
    assert t[i + |pre|..i + |pre| + |s|] == s;
    assert OccursAt(t, s, i + |pre|);
  }

  /** A target without `.md` is kept only where its text contains it. */
  lemma PlainTargetMentioned(textLower: string, tl: string)
    requires !Contains(tl, ".md")
    ensures MentionsTarget(textLower, tl) <==> Contains(textLower, tl)
  {
    MentionsIff(textLower, tl);
  }

  // ---------------------------------------------------------------------------
  // `retrieve`: which results come back
  // ---------------------------------------------------------------------------

  /** The vector-store query: the question and the number of results wanted. */
  type Client = (string, int) -> seq<Snippet>

  /** With a detected file name, ask for four times as many results and return
      at most `k` of those that mention it, or of all of them when none does;
      without one, return the plain `k`-result query. */
  function Retrieve(q: string, k: int, client: Client): (r: seq<Snippet>)
    ensures ExtractFilename(q).None? ==> r == client(q, k)
    ensures ExtractFilename(q).Some? && k >= 0 ==> |r| <= k
    ensures ExtractFilename(q).Some? ==> forall x | x in r :: x in client(q, k * 4)
    ensures ExtractFilename(q).Some? ==>
      var wide := client(q, k * 4);
      var target := ExtractFilename(q).value;
      if exists x | x in wide :: MentionsTarget(Lower(TextOf(x)), Lower(target)) then
        (forall x | x in r :: MentionsTarget(Lower(TextOf(x)), Lower(target)))
        && r == Take(FilterByFilename(wide, target), k)
      else r == Take(wide, k)
  {
    match ExtractFilename(q)
    case Some(target) =>
      var results := client(q, k * 4);
      var filtered := FilterByFilename(results, target);
      if |filtered| > 0 then
        assert filtered[0] in filtered;
        Take(filtered, k)
      else
        Take(results, k)
    case None => client(q, k)
  }
}
