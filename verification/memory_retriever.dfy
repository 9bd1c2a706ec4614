/** `MemoryRetriever` (backend/memory/memory_retriever.py): keyword scoring
    and ranking over the stored categories, and the text rendering of what
    was found. Scores are kept in tenths, so every weight is an integer. */
module MemoryRetriever {
  import opened Wrappers
  import opened Text
  import opened Ranking
  import opened MemoryStore

  // ---------------------------------------------------------------------------
  // Scoring
  // ---------------------------------------------------------------------------

  /** `set(query_lower.split())`, in first-occurrence order. */
  function QueryWords(queryLower: string): (r: seq<string>)
    ensures Distinct(r)
    ensures forall w :: w in r <==> w in Words(queryLower)
  {
    Dedup(Words(queryLower))
  }

  const PhraseWeight := 20
  const WordWeight := 5
  const TagWeight := 8
  const TitleWeight := 5

  predicate SomeWordIn(words: seq<string>, text: string) {
    exists w | w in words :: Contains(text, w)
  }

  /** `_calculate_match_score`, in tenths: 2.0 when the whole query occurs
      in "text1 text2", 0.5 for each query word that is a word of that text,
      0.8 when a query word occurs in the joined tags, and 0.5 when one
      occurs in text1. */
  function MatchScore(text1: string, text2: string, tags: seq<string>, query: string): (score: nat)
    ensures var combined := Lower(text1) + " " + Lower(text2);
      var words := QueryWords(Lower(query));
      && (Contains(combined, Lower(query)) ==> score >= PhraseWeight)
      && score >= WordWeight * |Filter(words, (w: string) => w in Words(combined))|
      && (score > 0 <==>
            || Contains(combined, Lower(query))
            || (exists w | w in words :: w in Words(combined))
            || SomeWordIn(words, Lower(Join(tags, " ")))
            || SomeWordIn(words, Lower(text1)))
  {
    var queryLower := Lower(query);
    var words := QueryWords(queryLower);
    var combined := Lower(text1) + " " + Lower(text2);
    var matching := Filter(words, (w: string) => w in Words(combined));
    assert |matching| > 0 <==> exists w | w in words :: w in Words(combined) by {
      if |matching| > 0 {
        assert matching[0] in matching;
      }
    }
    (if Contains(combined, queryLower) then PhraseWeight else 0)
    + WordWeight * |matching|
    + (if SomeWordIn(words, Lower(Join(tags, " "))) then TagWeight else 0)
    + (if SomeWordIn(words, Lower(text1)) then TitleWeight else 0)
  }

  /** An empty query occurs in every text, so it scores at least 2.0
      against every entry. */
  lemma EmptyQueryMatchesEverything(text1: string, text2: string, tags: seq<string>)
    ensures MatchScore(text1, text2, tags, "") >= PhraseWeight
  {
    assert OccursAt(Lower(text1) + " " + Lower(text2), Lower(""), 0);
  }

  // ---------------------------------------------------------------------------
  // Searching
  // ---------------------------------------------------------------------------

  /** The entries that score above zero, in stored order. */
  function Hits<T(!new)>(entries: seq<T>, score: T -> nat): (r: seq<T>)
    ensures forall x :: x in r <==> x in entries && score(x) > 0
  {
    Filter(entries, (x: T) => score(x) > 0)
  }

  /** The entries that score above zero, ranked highest first (stably), at
      most `limit` of them. */
  function Ranked<T(!new)>(entries: seq<T>, score: T -> nat, limit: int): (r: seq<T>)
    ensures forall x | x in r :: x in entries && score(x) > 0
    ensures SortedDesc(r, (a: T, b: T) => score(a) > score(b))
    ensures var hits := Hits(entries, score);
      && (limit >= 0 ==> |r| == Min(limit, |hits|))
      && (limit >= |hits| ==> multiset(r) == multiset(hits))
    ensures var hits := Hits(entries, score);
      forall x, y | x in hits && x !in r && y in r :: score(y) >= score(x)
  {
    var hits := Hits(entries, score);
    var above := (a: T, b: T) => score(a) > score(b);
    var sorted := SortDesc(hits, above);
    IntKeyOrder(score);
    SortDescSorted(hits, above);
    PrefixSorted(sorted, |Take(sorted, limit)|, above);
    MultisetOfPrefix(sorted, |Take(sorted, limit)|);
    forall x | x in Take(sorted, limit) ensures x in hits {
      assert x in multiset(Take(sorted, limit));
    }
    assert limit >= |hits| ==> Take(sorted, limit) == sorted[..|sorted|] == sorted;
    CutKeepsTop(hits, sorted, |Take(sorted, limit)|, score);
    Take(sorted, limit)
  }

  /** Cutting a ranking of the hits after `n` entries keeps the best: every
      hit left out scores no higher than any entry kept. */
  lemma CutKeepsTop<T>(hits: seq<T>, sorted: seq<T>, n: nat, score: T -> nat)
    requires multiset(sorted) == multiset(hits)
    requires n <= |sorted|
    requires SortedDesc(sorted, (a: T, b: T) => score(a) > score(b))
    ensures forall x, y | x in hits && x !in sorted[..n] && y in sorted[..n] :: score(y) >= score(x)
  {
    LeftOutNotAbove(sorted, n, (a: T, b: T) => score(a) > score(b));
    forall x | x in hits ensures x in sorted {
      assert x in multiset(hits);
    }
  }

  /** `search_questions`: scored on the question and the answer. */
  function SearchQuestions(c: Categories, query: string, limit: int): (r: seq<Question>)
    ensures forall q | q in r :: q in c.questions && MatchScore(q.question, q.answer, q.tags, query) > 0
    ensures limit >= 0 ==> |r| == Min(limit, |Hits(c.questions, QuestionScore(query))|)
    ensures forall i, j | 0 <= i < j < |r| ::
      MatchScore(r[j].question, r[j].answer, r[j].tags, query) <= MatchScore(r[i].question, r[i].answer, r[i].tags, query)
    ensures forall x, y | x in c.questions && x !in r && y in r ::
      MatchScore(x.question, x.answer, x.tags, query) <= MatchScore(y.question, y.answer, y.tags, query)
  {
    Ranked(c.questions, QuestionScore(query), limit)
  }

  function QuestionScore(query: string): Question -> nat {
    (q: Question) => MatchScore(q.question, q.answer, q.tags, query)
  }

  /** `search_explanations`: scored on the topic and the explanation. */
  function SearchExplanations(c: Categories, query: string, limit: int): (r: seq<Explanation>)
    ensures forall e | e in r :: e in c.explanations && MatchScore(e.topic, e.explanation, e.tags, query) > 0
    ensures limit >= 0 ==> |r| == Min(limit, |Hits(c.explanations, ExplanationScore(query))|)
    ensures forall i, j | 0 <= i < j < |r| ::
      MatchScore(r[j].topic, r[j].explanation, r[j].tags, query) <= MatchScore(r[i].topic, r[i].explanation, r[i].tags, query)
    ensures forall x, y | x in c.explanations && x !in r && y in r ::
      MatchScore(x.topic, x.explanation, x.tags, query) <= MatchScore(y.topic, y.explanation, y.tags, query)
  {
    Ranked(c.explanations, ExplanationScore(query), limit)
  }

  function ExplanationScore(query: string): Explanation -> nat {
    (e: Explanation) => MatchScore(e.topic, e.explanation, e.tags, query)
  }

  /** `search_design_decisions`: scored on the decision and the rationale. */
  function SearchDecisions(c: Categories, query: string, limit: int): (r: seq<Decision>)
    ensures forall d | d in r :: d in c.decisions && MatchScore(d.decision, d.rationale, d.tags, query) > 0
    ensures limit >= 0 ==> |r| == Min(limit, |Hits(c.decisions, DecisionScore(query))|)
    ensures forall i, j | 0 <= i < j < |r| ::
      MatchScore(r[j].decision, r[j].rationale, r[j].tags, query) <= MatchScore(r[i].decision, r[i].rationale, r[i].tags, query)
    ensures forall x, y | x in c.decisions && x !in r && y in r ::
      MatchScore(x.decision, x.rationale, x.tags, query) <= MatchScore(y.decision, y.rationale, y.tags, query)
  {
    Ranked(c.decisions, DecisionScore(query), limit)
  }

  function DecisionScore(query: string): Decision -> nat {
    (d: Decision) => MatchScore(d.decision, d.rationale, d.tags, query)
  }

  /** When every entry scores and there is room for all of them, all are
      returned. */
  lemma RankedKeepsAll<T(!new)>(entries: seq<T>, score: T -> nat, limit: int)
    requires forall x | x in entries :: score(x) > 0
    requires limit >= |entries|
    ensures multiset(Ranked(entries, score, limit)) == multiset(entries)
  {
    FilterKeepsAll(entries, (x: T) => score(x) > 0);
  }

  /** With an empty query and room for all of them, every question is found. */
  lemma EmptyQueryFindsAllQuestions(c: Categories, limit: int)
    requires limit >= |c.questions|
    ensures multiset(SearchQuestions(c, "", limit)) == multiset(c.questions)
  {
    var score := (q: Question) => MatchScore(q.question, q.answer, q.tags, "");
    forall q | q in c.questions ensures score(q) > 0 {
      EmptyQueryMatchesEverything(q.question, q.answer, q.tags);
    }
    RankedKeepsAll(c.questions, score, limit);
  }

  /** A change context concerns `filePath` when either path contains the
      other. */
  predicate ConcernsFile(c: ChangeContext, filePath: string) {
    Contains(c.filePath, filePath) || Contains(filePath, c.filePath)
  }

  function ForFile(filePath: string): ChangeContext -> bool {
    (x: ChangeContext) => ConcernsFile(x, filePath)
  }

  /** `get_change_context_for_file`: the contexts for the file, newest first,
      at most `limit`. */
  function ChangeContextsForFile(c: Categories, filePath: string, limit: int): (r: seq<ChangeContext>)
    ensures forall x | x in r :: x in c.changes && ConcernsFile(x, filePath)
    ensures SortedDesc(r, (a: ChangeContext, b: ChangeContext) => StrLess(b.timestamp, a.timestamp))
    ensures limit >= 0 ==> |r| == Min(limit, |Filter(c.changes, ForFile(filePath))|)
    ensures forall x, y | x in c.changes && ConcernsFile(x, filePath) && x !in r && y in r ::
      !StrLess(y.timestamp, x.timestamp)
  {
    var keep := ForFile(filePath);
    var stamp := (x: ChangeContext) => x.timestamp;
    NewestOfFiltered(c.changes, keep, stamp, limit);
    NewestFirst(Filter(c.changes, keep), stamp, limit)
  }

  /** The newest of the items that pass a test are items that pass it, and
      no passing item left out is newer than one kept. */
  lemma NewestOfFiltered<T(!new)>(items: seq<T>, keep: T -> bool, timestamp: T -> string, limit: int)
    ensures var r := NewestFirst(Filter(items, keep), timestamp, limit);
      && (forall x | x in r :: x in items && keep(x))
      && (forall x, y | x in items && keep(x) && x !in r && y in r :: !StrLess(timestamp(y), timestamp(x)))
  {
    var matches := Filter(items, keep);
    var r := NewestFirst(matches, timestamp, limit);
    forall x | x in r ensures x in matches {
      assert x in multiset(r);
    }
  }

  /** `find_related_context`: three of each kind; change contexts only for
      a non-empty file path, since an empty string is falsy. */
  function FindRelatedContext(c: Categories, query: string, filePath: Option<string>): (r: Categories)
    ensures |r.questions| <= 3 && |r.explanations| <= 3 && |r.decisions| <= 3 && |r.changes| <= 3
    ensures (filePath.None? || filePath.value == "") ==> r.changes == []
    ensures r.questions == SearchQuestions(c, query, 3)
    ensures r.explanations == SearchExplanations(c, query, 3)
    ensures r.decisions == SearchDecisions(c, query, 3)
    ensures filePath.Some? && filePath.value != "" ==> r.changes == ChangeContextsForFile(c, filePath.value, 3)
  {
    Categories(
      SearchQuestions(c, query, 3),
      SearchExplanations(c, query, 3),
      SearchDecisions(c, query, 3),
      if filePath.Some? && filePath.value != "" then ChangeContextsForFile(c, filePath.value, 3) else [])
  }

  /** What `find_related_context` gives, in terms of the stored entries: per
      kind, the three best-scoring entries among those that score at all
      (fewer when fewer score), best first; and for a file path, its three
      newest change contexts. */
  lemma RelatedContextIsTopThree(c: Categories, query: string, path: string)
    ensures var r := FindRelatedContext(c, query, Some(path));
      && |r.questions| == Min(3, |Hits(c.questions, QuestionScore(query))|)
      && |r.explanations| == Min(3, |Hits(c.explanations, ExplanationScore(query))|)
      && |r.decisions| == Min(3, |Hits(c.decisions, DecisionScore(query))|)
      && (forall q | q in r.questions :: q in Hits(c.questions, QuestionScore(query)))
      && (forall e | e in r.explanations :: e in Hits(c.explanations, ExplanationScore(query)))
      && (forall d | d in r.decisions :: d in Hits(c.decisions, DecisionScore(query)))
      && (forall x, y | x in c.questions && x !in r.questions && y in r.questions ::
            QuestionScore(query)(x) <= QuestionScore(query)(y))
      && (path != "" ==>
            && |r.changes| == Min(3, |Filter(c.changes, ForFile(path))|)
            && (forall x | x in r.changes :: x in c.changes && ConcernsFile(x, path))
            && (forall x, y | x in c.changes && ConcernsFile(x, path) && x !in r.changes && y in r.changes ::
                  !StrLess(y.timestamp, x.timestamp)))
  {
  }

  /** `get_memory_summary`. */
  datatype Summary = Summary(
    questionCount: nat, explanationCount: nat, decisionCount: nat, changeCount: nat, recent: Categories)

  function MemorySummary(m: Memory): (r: Summary)
    ensures r.questionCount == |m.items.questions| && r.explanationCount == |m.items.explanations|
    ensures r.decisionCount == |m.items.decisions| && r.changeCount == |m.items.changes|
    ensures |r.recent.questions| == Min(3, |m.items.questions|)
    ensures |r.recent.explanations| == Min(3, |m.items.explanations|)
    ensures |r.recent.decisions| == Min(3, |m.items.decisions|)
    ensures |r.recent.changes| == Min(3, |m.items.changes|)
    ensures multiset(r.recent.questions) <= multiset(m.items.questions)
    ensures multiset(r.recent.explanations) <= multiset(m.items.explanations)
    ensures multiset(r.recent.decisions) <= multiset(m.items.decisions)
    ensures multiset(r.recent.changes) <= multiset(m.items.changes)
    ensures forall i, j | 0 <= i < j < |r.recent.questions| ::
      !StrLess(r.recent.questions[i].timestamp, r.recent.questions[j].timestamp)
    ensures forall i, j | 0 <= i < j < |r.recent.explanations| ::
      !StrLess(r.recent.explanations[i].timestamp, r.recent.explanations[j].timestamp)
    ensures forall i, j | 0 <= i < j < |r.recent.decisions| ::
      !StrLess(r.recent.decisions[i].timestamp, r.recent.decisions[j].timestamp)
    ensures forall i, j | 0 <= i < j < |r.recent.changes| ::
      !StrLess(r.recent.changes[i].timestamp, r.recent.changes[j].timestamp)
    ensures KeepsNewest(m.items.questions, r.recent.questions, QuestionStamp)
    ensures KeepsNewest(m.items.explanations, r.recent.explanations, ExplanationStamp)
    ensures KeepsNewest(m.items.decisions, r.recent.decisions, DecisionStamp)
    ensures KeepsNewest(m.items.changes, r.recent.changes, ChangeStamp)
  {
    Summary(|m.items.questions|, |m.items.explanations|, |m.items.decisions|, |m.items.changes|, RecentItems(m, 3))
  }

  // ---------------------------------------------------------------------------
  // Rendering
  // ---------------------------------------------------------------------------

  /** The headers, as the source's mis-decoded emoji bytes spell them. */
  const QuestionsHeader := "\U{F0}\U{178}\U{201C}\U{2039} Related Past Questions:"
  const ExplanationsHeader := "\n\U{F0}\U{178}\U{201C}\U{2013} Related Explanations:"
  const DecisionsHeader := "\n\U{F0}\U{178}\U{17D}\U{AF} Related Design Decisions:"
  const ChangesHeader := "\n\U{F0}\U{178}\U{201D}\U{201E} Related Change Context:"
  const NoMemory := "No related memory found."

  /** A body field: at most its first 100 characters, then "...". */
  function Cut(lead: string, body: string): (r: string)
    ensures |r| == |lead| + Min(100, |body|) + 3
    ensures r[..|lead|] == lead
    ensures r[|lead|..|r| - 3] == body[..Min(100, |body|)]
    ensures r[|r| - 3..] == "..."
  {
    lead + Take(body, 100) + "..."
  }

  /** A header and two lines for each of the first two items. */
  function Section<T(!new)>(header: string, items: seq<T>, render: T -> seq<string>): (r: seq<string>)
    requires forall x :: |render(x)| == 2
    ensures |items| == 0 <==> r == []
    ensures |r| == (if |items| == 0 then 0 else 1 + 2 * Min(|items|, 2))
    ensures |items| > 0 ==> r[0] == header
  {
    if |items| == 0 then []
    else [header] + render(items[0]) + (if |items| > 1 then render(items[1]) else [])
  }

  function QuestionLines(q: Question): seq<string> {
    ["  Q: " + q.question, Cut("  A: ", q.answer)]
  }

  function ExplanationLines(e: Explanation): seq<string> {
    ["  Topic: " + e.topic, Cut("  ", e.explanation)]
  }

  function DecisionLines(d: Decision): seq<string> {
    ["  Decision: " + d.decision, Cut("  Rationale: ", d.rationale)]
  }

  function ChangeLines(c: ChangeContext): seq<string> {
    ["  File: " + c.filePath, Cut("  Summary: ", c.changeSummary)]
  }

  /** The lines of `format_memory_response`, before joining. */
  function ResponseLines(c: Categories): (r: seq<string>)
    ensures |r| == SectionSize(|c.questions|) + SectionSize(|c.explanations|)
      + SectionSize(|c.decisions|) + SectionSize(|c.changes|)
    ensures |r| > 0 ==> |r[0]| > 0 && r[0][0] != 'N'
  {
    Section(QuestionsHeader, c.questions, QuestionLines)
    + Section(ExplanationsHeader, c.explanations, ExplanationLines)
    + Section(DecisionsHeader, c.decisions, DecisionLines)
    + Section(ChangesHeader, c.changes, ChangeLines)
  }

  /** Lines a category contributes: a header and two per shown item, at most
      two items shown. */
  function SectionSize(n: nat): nat {
    if n == 0 then 0 else 1 + 2 * Min(n, 2)
  }

  /** `format_memory_response`. */
  function FormatMemoryResponse(c: Categories): (r: string)
    ensures r == NoMemory <==> c == NoItems
  {
    var lines := ResponseLines(c);
    NoLinesIff(c);
    if |lines| == 0 then NoMemory
    else
      JoinFirstChar(lines, "\n");
      NoMemoryInitial();
      Join(lines, "\n")
  }

  /** No lines are produced exactly when every category is empty. */
  lemma NoLinesIff(c: Categories)
    ensures |ResponseLines(c)| == 0 <==> c == NoItems
  {
  }

  lemma NoMemoryInitial()
    ensures |NoMemory| > 0 && NoMemory[0] == 'N'
  {
    assert NoMemory == "No" + " related memory found.";
  }

  /** A join begins with the first character of its first part. */
  lemma JoinFirstChar(lines: seq<string>, sep: string)
    requires |lines| > 0 && |lines[0]| > 0
    ensures |Join(lines, sep)| > 0 && Join(lines, sep)[0] == lines[0][0]
  {
    JoinStartsWithFirst(lines, sep);
    assert Join(lines, sep)[..|lines[0]|] == lines[0];
  }
}
