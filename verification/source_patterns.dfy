/** The regular expressions that the change-intelligence code runs over Python
    source text, each written out as a dedicated matcher over ASCII text.

    A matcher tries its pattern at one position of the text, the way the regex
    engine does during `re.findall` / `re.search`; `^` in MULTILINE mode holds at
    the start of the text and just after every `\n`. `\s` may run across line
    breaks, exactly as in the regex, and `FindAll` resumes scanning at the end
    of each match, so matches never overlap. */
module SourcePatterns {
  import opened Wrappers
  import opened Text

  /** One successful match: the text of the capture group (empty when the
      pattern has none) and the position just after the match. */
  datatype Hit = Hit(capture: string, end: nat)

  /** A pattern tried at one position of a text. */
  type Matcher = (string, nat) -> Option<Hit>

  /** `re.findall`: try the pattern at each position from `pos` on; after a
      match resume at its end, otherwise one position further. The captures
      come out in text order. */
  function FindAll(s: string, pos: nat, m: Matcher): seq<string>
    decreases |s| + 1 - pos
  {
    if pos > |s| then []
    else
      match m(s, pos)
      case Some(hit) =>
        [hit.capture] + FindAll(s, if pos < hit.end <= |s| then hit.end else pos + 1, m)
      case None => FindAll(s, pos + 1, m)
  }

  /** Every capture `FindAll` returns was produced by the matcher at some
      position at or after `pos`. */
  lemma {:induction false} FindAllCaptures(s: string, pos: nat, m: Matcher, c: string)
    requires c in FindAll(s, pos, m)
    ensures exists p | pos <= p <= |s| :: m(s, p).Some? && m(s, p).value.capture == c
    decreases |s| + 1 - pos
  {
    assert pos <= |s|;
    match m(s, pos)
    case Some(hit) =>
      var next := if pos < hit.end <= |s| then hit.end else pos + 1;
      assert FindAll(s, pos, m) == [hit.capture] + FindAll(s, next, m);
      if c == hit.capture {
        assert m(s, pos).value.capture == c;
      } else {
        assert c in FindAll(s, next, m);
        FindAllCaptures(s, next, m, c);
      }
    case None =>
      assert FindAll(s, pos, m) == FindAll(s, pos + 1, m);
      FindAllCaptures(s, pos + 1, m, c);
  }

  /** Where `re.search` succeeds: the position and the match there. */
  datatype Found = Found(at: nat, hit: Hit)

  /** `re.search`: the match at the leftmost position from `pos` on where the
      pattern matches. */
  function Search(s: string, pos: nat, m: Matcher): (r: Option<Found>)
    ensures r.Some? ==> pos <= r.value.at <= |s| && m(s, r.value.at) == Some(r.value.hit)
    ensures r.Some? ==> forall q | pos <= q < r.value.at :: m(s, q).None?
    ensures r.None? ==> forall q | pos <= q <= |s| :: m(s, q).None?
    decreases |s| + 1 - pos
  {
    if pos > |s| then None
    else
      match m(s, pos)
      case Some(hit) => Some(Found(pos, hit))
      case None => Search(s, pos + 1, m)
  }

  // ---------------------------------------------------------------------------
  // Scanning helpers
  // ---------------------------------------------------------------------------

  /** Regex `^` in MULTILINE mode. */
  predicate AtLineStart(s: string, pos: nat) {
    pos == 0 || (pos <= |s| && s[pos - 1] == '\n')
  }

  /** Regex `\b`: a word character on exactly one side of `pos`. */
  predicate AtWordBoundary(s: string, pos: nat)
    requires pos <= |s|
  {
    (pos > 0 && IsWordChar(s[pos - 1])) != (pos < |s| && IsWordChar(s[pos]))
  }

  /** End of the run of whitespace starting at `i` (greedy `\s*`). */
  function SkipSpaces(s: string, i: nat): (j: nat)
    requires i <= |s|
    ensures i <= j <= |s|
    ensures forall k | i <= k < j :: IsSpace(s[k])
    ensures j < |s| ==> !IsSpace(s[j])
    decreases |s| - i
  {
    if i < |s| && IsSpace(s[i]) then SkipSpaces(s, i + 1) else i
  }

  /** End of the run of word characters starting at `i` (greedy `\w*`). */
  function WordEnd(s: string, i: nat): (j: nat)
    requires i <= |s|
    ensures i <= j <= |s|
    ensures forall k | i <= k < j :: IsWordChar(s[k])
    ensures j < |s| ==> !IsWordChar(s[j])
    decreases |s| - i
  {
    if i < |s| && IsWordChar(s[i]) then WordEnd(s, i + 1) else i
  }

  /** End of the run of non-whitespace characters starting at `i` (`[^\s]*`). */
  function NonSpaceEnd(s: string, i: nat): (j: nat)
    requires i <= |s|
    ensures i <= j <= |s|
    ensures forall k | i <= k < j :: !IsSpace(s[k])
    decreases |s| - i
  {
    if i < |s| && !IsSpace(s[i]) then NonSpaceEnd(s, i + 1) else i
  }

  predicate IsUpperIdentChar(c: char) {
    ('A' <= c <= 'Z') || IsDigit(c) || c == '_'
  }

  /** End of the run of `[A-Z0-9_]` characters starting at `i`. */
  function UpperIdentEnd(s: string, i: nat): (j: nat)
    requires i <= |s|
    ensures i <= j <= |s|
    ensures forall k | i <= k < j :: IsUpperIdentChar(s[k])
    decreases |s| - i
  {
    if i < |s| && IsUpperIdentChar(s[i]) then UpperIdentEnd(s, i + 1) else i
  }

  /** `\)\s*:` matches at `q`: a `)` followed, after optional whitespace, by `:`. */
  predicate ClosesHeader(s: string, q: nat)
    requires q < |s|
  {
    s[q] == ')' && SkipSpaces(s, q + 1) < |s| && s[SkipSpaces(s, q + 1)] == ':'
  }

  /** The lazy `(.*?)\)\s*:` of a `def` header: the first position at or after
      `from` where `\)\s*:` matches. */
  function CloseParenColon(s: string, from: nat): (r: Option<nat>)
    requires from <= |s|
    ensures r.Some? ==> from <= r.value < |s| && ClosesHeader(s, r.value)
    ensures r.Some? ==> forall q | from <= q < r.value :: !ClosesHeader(s, q)
    ensures r.None? ==> forall q | from <= q < |s| :: !ClosesHeader(s, q)
    decreases |s| - from
  {
    if from == |s| then None
    else if ClosesHeader(s, from) then Some(from)
    else CloseParenColon(s, from + 1)
  }

  /** First index at or after `from` where `sub` occurs. */
  function IndexOf(s: string, sub: string, from: nat): (r: Option<nat>)
    requires from <= |s|
    ensures r.Some? ==> from <= r.value && OccursAt(s, sub, r.value)
    decreases |s| - from
  {
    if OccursAt(s, sub, from) then Some(from)
    else if from == |s| then None
    else IndexOf(s, sub, from + 1)
  }

  /** Last index `x` with `lo <= x` and `x + |sub| <= hi` where `sub` occurs
      (how a greedy `\w+` backs off to let a literal suffix match). */
  function LastIndexOfWithin(s: string, sub: string, lo: nat, hi: nat): (r: Option<nat>)
    requires hi <= |s|
    ensures r.Some? ==> lo <= r.value && r.value + |sub| <= hi && OccursAt(s, sub, r.value)
    decreases hi
  {
    if hi < lo + |sub| then None
    else if OccursAt(s, sub, hi - |sub|) then Some(hi - |sub|)
    else if hi == 0 then None
    else LastIndexOfWithin(s, sub, lo, hi - 1)
  }

  // ---------------------------------------------------------------------------
  // `def` and `class` headers
  // ---------------------------------------------------------------------------

  /** `^\s*def\s+(\w+)\s*\(`: the defined name, anchored at a line start. */
  function DefAt(s: string, pos: nat): (r: Option<Hit>)
    ensures r.Some? ==> AtLineStart(s, pos) && pos < r.value.end <= |s|
    ensures r.Some? ==> r.value.capture != [] && forall k | 0 <= k < |r.value.capture| :: IsWordChar(r.value.capture[k])
  {
    if pos > |s| || !AtLineStart(s, pos) then None
    else
      var a := SkipSpaces(s, pos);
      if !OccursAt(s, "def", a) then None
      else
        var b := SkipSpaces(s, a + 3);
        var c := WordEnd(s, b);
        if b == a + 3 || c == b then None
        else
          var d := SkipSpaces(s, c);
          if d < |s| && s[d] == '(' then Some(Hit(s[b..c], d + 1)) else None
  }

  /** A name of at least two characters whose first is a letter (`[a-zA-Z]\w+`). */
  predicate IsPublicName(name: string) {
    |name| >= 2 && IsLetter(name[0])
  }

  /** `^\s*def\s+([a-zA-Z]\w+)\s*\(`. The name group of `DefAt` is a maximal run
      of word characters, so this pattern matches exactly where `DefAt` does
      with a public name. */
  function PublicDefAt(s: string, pos: nat): (r: Option<Hit>)
    ensures r.Some? ==> IsPublicName(r.value.capture)
  {
    match DefAt(s, pos)
    case Some(h) => if IsPublicName(h.capture) then Some(h) else None
    case None => None
  }

  /** `^\s*class\s+(\w+)`. */
  function ClassAt(s: string, pos: nat): (r: Option<Hit>)
    ensures r.Some? ==> AtLineStart(s, pos) && pos < r.value.end <= |s|
    ensures r.Some? ==> r.value.capture != [] && forall k | 0 <= k < |r.value.capture| :: IsWordChar(r.value.capture[k])
  {
    if pos > |s| || !AtLineStart(s, pos) then None
    else
      var a := SkipSpaces(s, pos);
      if !OccursAt(s, "class", a) then None
      else
        var b := SkipSpaces(s, a + 5);
        var c := WordEnd(s, b);
        if b == a + 5 || c == b then None else Some(Hit(s[b..c], c))
  }

  /** `^\s*class\s+([a-zA-Z]\w+)`. */
  function PublicClassAt(s: string, pos: nat): (r: Option<Hit>)
    ensures r.Some? ==> IsPublicName(r.value.capture)
  {
    match ClassAt(s, pos)
    case Some(h) => if IsPublicName(h.capture) then Some(h) else None
    case None => None
  }

  /** Names of every `def` header (`_extract_functions`), indented ones
      included: each is a non-empty word captured by a `def` match. */
  function DefNames(s: string): (r: seq<string>)
    ensures forall n | n in r :: exists p | 0 <= p <= |s| :: DefAt(s, p).Some? && DefAt(s, p).value.capture == n
    ensures forall n | n in r :: n != [] && forall k | 0 <= k < |n| :: IsWordChar(n[k])
  {
    var r := FindAll(s, 0, DefAt);
    forall n | n in r ensures exists p | 0 <= p <= |s| :: DefAt(s, p).Some? && DefAt(s, p).value.capture == n {
      FindAllCaptures(s, 0, DefAt, n);
    }
    r
  }

  /** Names of `def` headers whose name is public (`[a-zA-Z]\w+`). */
  function PublicDefNames(s: string): seq<string> {
    FindAll(s, 0, PublicDefAt)
  }

  /** Names of every `class` header (`_extract_classes`, and the parser
      fallback): each is a non-empty word captured by a `class` match. */
  function ClassNames(s: string): (r: seq<string>)
    ensures forall n | n in r :: exists p | 0 <= p <= |s| :: ClassAt(s, p).Some? && ClassAt(s, p).value.capture == n
    ensures forall n | n in r :: n != [] && forall k | 0 <= k < |n| :: IsWordChar(n[k])
  {
    var r := FindAll(s, 0, ClassAt);
    forall n | n in r ensures exists p | 0 <= p <= |s| :: ClassAt(s, p).Some? && ClassAt(s, p).value.capture == n {
      FindAllCaptures(s, 0, ClassAt, n);
    }
    r
  }

  /** Names of `class` headers whose name is public. */
  function PublicClassNames(s: string): seq<string> {
    FindAll(s, 0, PublicClassAt)
  }

  // ---------------------------------------------------------------------------
  // Imports (column 0 only: the patterns have no leading `\s*`)
  // ---------------------------------------------------------------------------

  /** `^import\s+([^\s]+)`. */
  function ImportAt(s: string, pos: nat): (r: Option<Hit>)
    ensures r.Some? ==> AtLineStart(s, pos) && OccursAt(s, "import", pos) && pos < r.value.end <= |s|
  {
    if pos > |s| || !AtLineStart(s, pos) || !OccursAt(s, "import", pos) then None
    else
      var b := SkipSpaces(s, pos + 6);
      var c := NonSpaceEnd(s, b);
      if b == pos + 6 || c == b then None else Some(Hit(s[b..c], c))
  }

  /** `^from\s+([^\s]+)\s+import`. */
  function FromImportAt(s: string, pos: nat): (r: Option<Hit>)
    ensures r.Some? ==> AtLineStart(s, pos) && OccursAt(s, "from", pos) && pos < r.value.end <= |s|
  {
    if pos > |s| || !AtLineStart(s, pos) || !OccursAt(s, "from", pos) then None
    else
      var b := SkipSpaces(s, pos + 4);
      var c := NonSpaceEnd(s, b);
      if b == pos + 4 || c == b then None
      else
        var d := SkipSpaces(s, c);
        if d == c || !OccursAt(s, "import", d) then None else Some(Hit(s[b..c], d + 6))
  }

  /** `_extract_imports`: the targets of both import forms, as a set kept in
      first-occurrence order. */
  function ImportTargets(s: string): (r: seq<string>)
    ensures Distinct(r)
    ensures Elems(r) == Elems(FindAll(s, 0, ImportAt)) + Elems(FindAll(s, 0, FromImportAt))
  {
    Dedup(FindAll(s, 0, ImportAt) + FindAll(s, 0, FromImportAt))
  }

  // ---------------------------------------------------------------------------
  // Constants, raises, docstrings and return annotations
  // ---------------------------------------------------------------------------

  /** `^\s*([A-Z][A-Z0-9_]+)\s*=`. */
  function ConstantAt(s: string, pos: nat): (r: Option<Hit>)
    ensures r.Some? ==> pos < r.value.end <= |s| && |r.value.capture| >= 2
  {
    if pos > |s| || !AtLineStart(s, pos) then None
    else
      var a := SkipSpaces(s, pos);
      if a == |s| || !('A' <= s[a] <= 'Z') then None
      else
        var c := UpperIdentEnd(s, a + 1);
        var d := SkipSpaces(s, c);
        if c == a + 1 || d == |s| || s[d] != '=' then None else Some(Hit(s[a..c], d + 1))
  }

  /** Upper-case names assigned at a line start. */
  function ConstantNames(s: string): seq<string> {
    FindAll(s, 0, ConstantAt)
  }

  /** `\braise\s+`. */
  function RaiseAt(s: string, pos: nat): (r: Option<Hit>)
    ensures r.Some? ==> pos < r.value.end <= |s|
  {
    if pos > |s| || !AtWordBoundary(s, pos) || !OccursAt(s, "raise", pos) then None
    else
      var b := SkipSpaces(s, pos + 5);
      if b == pos + 5 then None else Some(Hit("", b))
  }

  /** `\braise\s+(\w+Exception|\w+Error)`: the greedy `\w+` backs off to the last
      `Exception` (then, failing that, the last `Error`) inside the word that
      follows, with at least one character before it. */
  function RaisedTypeAt(s: string, pos: nat): (r: Option<Hit>)
    ensures r.Some? ==> pos < r.value.end <= |s|
  {
    match RaiseAt(s, pos)
    case None => None
    case Some(h) =>
      var b := h.end;
      var c := WordEnd(s, b);
      match LastIndexOfWithin(s, "Exception", b + 1, c)
      case Some(x) => Some(Hit(s[b..x + 9], x + 9))
      case None =>
        match LastIndexOfWithin(s, "Error", b + 1, c)
        case Some(x) => Some(Hit(s[b..x + 5], x + 5))
        case None => None
  }

  /** Number of `raise` statements. */
  function RaiseCount(s: string): nat {
    |FindAll(s, 0, RaiseAt)|
  }

  /** Names of the exception types raised, as a set. */
  function RaisedTypes(s: string): set<string> {
    Elems(FindAll(s, 0, RaisedTypeAt))
  }

  /** `""".*?"""` with DOTALL: from an opening triple quote to the next one. */
  function DocstringAt(s: string, pos: nat): (r: Option<Hit>)
    ensures r.Some? ==> pos < r.value.end <= |s|
  {
    if pos > |s| || !OccursAt(s, "\"\"\"", pos) then None
    else
      match IndexOf(s, "\"\"\"", pos + 3)
      case Some(j) => Some(Hit("", j + 3))
      case None => None
  }

  function DocstringCount(s: string): nat {
    |FindAll(s, 0, DocstringAt)|
  }

  /** `->\s*\w+`. */
  function ReturnHintAt(s: string, pos: nat): (r: Option<Hit>)
    ensures r.Some? ==> pos < r.value.end <= |s|
  {
    if pos > |s| || !OccursAt(s, "->", pos) then None
    else
      var a := SkipSpaces(s, pos + 2);
      var c := WordEnd(s, a);
      if c == a then None else Some(Hit("", c))
  }

  function ReturnHintCount(s: string): nat {
    |FindAll(s, 0, ReturnHintAt)|
  }

  // ---------------------------------------------------------------------------
  // Parameter text of a named function
  // ---------------------------------------------------------------------------

  /** `^\s*def\s+NAME\s*\((.*?)\)\s*:` with MULTILINE and DOTALL, tried at `pos`:
      the parameter text, which may span lines. */
  function ParameterTextAt(s: string, name: string, pos: nat): Option<string> {
    if pos > |s| || !AtLineStart(s, pos) then None
    else
      var a := SkipSpaces(s, pos);
      if !OccursAt(s, "def", a) then None
      else
        var b := SkipSpaces(s, a + 3);
        if b == a + 3 || !OccursAt(s, name, b) then None
        else
          var d := SkipSpaces(s, b + |name|);
          if d == |s| || s[d] != '(' then None
          else
            match CloseParenColon(s, d + 1)
            case Some(j) => Some(s[d + 1..j])
            case None => None
  }

  /** `re.search` of that pattern from `pos` on: the leftmost match. */
  function ParameterTextFrom(s: string, name: string, pos: nat): Option<string>
    decreases |s| + 1 - pos
  {
    if pos > |s| then None
    else
      match ParameterTextAt(s, name, pos)
      case Some(t) => Some(t)
      case None => ParameterTextFrom(s, name, pos + 1)
  }

  /** `_get_function_signature_string`: the parameter text of the first `def`
      of `name`, or "" when there is none. */
  function SignatureString(s: string, name: string): string {
    ParameterTextFrom(s, name, 0).GetOr("")
  }
}
