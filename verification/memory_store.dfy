/** The in-memory state of `MemoryStore` (backend/memory/memory_store.py):
    four append-only category lists and the metadata timestamps. Loading
    and saving the JSON file are not modelled; the current time is an input
    to every operation that reads the clock. */
module MemoryStore {
  import opened Wrappers
  import opened Text
  import opened Ranking

  datatype Question = Question(
    id: string, question: string, answer: string, context: map<string, string>, tags: seq<string>,
    timestamp: string)

  datatype Explanation = Explanation(
    id: string, topic: string, explanation: string, relatedFiles: seq<string>, tags: seq<string>,
    timestamp: string)

  datatype Decision = Decision(
    id: string, decision: string, rationale: string, alternatives: seq<string>, relatedFiles: seq<string>,
    tags: seq<string>, timestamp: string)

  /** Change contexts carry no tags. */
  datatype ChangeContext = ChangeContext(
    id: string, filePath: string, changeSummary: string, changeDetails: map<string, string>,
    relatedQuestions: seq<string>, timestamp: string)

  /** The four category lists, as stored and as returned by the queries. */
  datatype Categories = Categories(
    questions: seq<Question>,
    explanations: seq<Explanation>,
    decisions: seq<Decision>,
    changes: seq<ChangeContext>)

  datatype Memory = Memory(items: Categories, createdAt: string, lastUpdated: string)

  const NoItems := Categories([], [], [], [])

  /** A fresh store: the initial structure of `_ensure_storage_file`. */
  function Empty(now: string): (m: Memory)
    ensures m.items == NoItems
  {
    Memory(NoItems, now, now)
  }

  /** The id of the entry stored at position `n` of a category. */
  function EntryId(prefix: string, n: nat): (id: string)
    ensures |id| > |prefix| && id[..|prefix|] == prefix
  {
    prefix + NatToString(n)
  }

  /** Every entry's id is its category prefix and its position. This holds
      for a fresh store and is kept by every operation. */
  predicate WellNumbered(c: Categories) {
    && (forall k | 0 <= k < |c.questions| :: c.questions[k].id == EntryId("q_", k))
    && (forall k | 0 <= k < |c.explanations| :: c.explanations[k].id == EntryId("e_", k))
    && (forall k | 0 <= k < |c.decisions| :: c.decisions[k].id == EntryId("d_", k))
    && (forall k | 0 <= k < |c.changes| :: c.changes[k].id == EntryId("c_", k))
  }

  // ---------------------------------------------------------------------------
  // Storing
  // ---------------------------------------------------------------------------

  /** `store_question`: the new state and the id returned. */
  function StoreQuestion(
    m: Memory, question: string, answer: string, context: Option<map<string, string>>,
    tags: Option<seq<string>>, now: string): (r: (Memory, string))
    ensures r.1 == EntryId("q_", |m.items.questions|)
    ensures r.0.items.questions == m.items.questions
      + [Question(r.1, question, answer, context.GetOr(map[]), tags.GetOr([]), now)]
    ensures r.0.items.explanations == m.items.explanations && r.0.items.decisions == m.items.decisions
      && r.0.items.changes == m.items.changes
    ensures r.0.createdAt == m.createdAt && r.0.lastUpdated == now
    ensures WellNumbered(m.items) ==> WellNumbered(r.0.items)
  {
    var id := EntryId("q_", |m.items.questions|);
    var entry := Question(id, question, answer, context.GetOr(map[]), tags.GetOr([]), now);
    (m.(items := m.items.(questions := m.items.questions + [entry]), lastUpdated := now), id)
  }

  /** `store_explanation`. */
  function StoreExplanation(
    m: Memory, topic: string, explanation: string, relatedFiles: Option<seq<string>>,
    tags: Option<seq<string>>, now: string): (r: (Memory, string))
    ensures r.1 == EntryId("e_", |m.items.explanations|)
    ensures r.0.items.explanations == m.items.explanations
      + [Explanation(r.1, topic, explanation, relatedFiles.GetOr([]), tags.GetOr([]), now)]
    ensures r.0.items.questions == m.items.questions && r.0.items.decisions == m.items.decisions
      && r.0.items.changes == m.items.changes
    ensures r.0.createdAt == m.createdAt && r.0.lastUpdated == now
    ensures WellNumbered(m.items) ==> WellNumbered(r.0.items)
  {
    var id := EntryId("e_", |m.items.explanations|);
    var entry := Explanation(id, topic, explanation, relatedFiles.GetOr([]), tags.GetOr([]), now);
    (m.(items := m.items.(explanations := m.items.explanations + [entry]), lastUpdated := now), id)
  }

  /** `store_design_decision`. */
  function StoreDecision(
    m: Memory, decision: string, rationale: string, alternatives: Option<seq<string>>,
    relatedFiles: Option<seq<string>>, tags: Option<seq<string>>, now: string): (r: (Memory, string))
    ensures r.1 == EntryId("d_", |m.items.decisions|)
    ensures r.0.items.decisions == m.items.decisions
      + [Decision(r.1, decision, rationale, alternatives.GetOr([]), relatedFiles.GetOr([]), tags.GetOr([]), now)]
    ensures r.0.items.questions == m.items.questions && r.0.items.explanations == m.items.explanations
      && r.0.items.changes == m.items.changes
    ensures r.0.createdAt == m.createdAt && r.0.lastUpdated == now
    ensures WellNumbered(m.items) ==> WellNumbered(r.0.items)
  {
    var id := EntryId("d_", |m.items.decisions|);
    var entry := Decision(id, decision, rationale, alternatives.GetOr([]), relatedFiles.GetOr([]), tags.GetOr([]), now);
    (m.(items := m.items.(decisions := m.items.decisions + [entry]), lastUpdated := now), id)
  }

  /** `store_change_context`. */
  function StoreChangeContext(
    m: Memory, filePath: string, changeSummary: string, changeDetails: map<string, string>,
    relatedQuestions: Option<seq<string>>, now: string): (r: (Memory, string))
    ensures r.1 == EntryId("c_", |m.items.changes|)
    ensures r.0.items.changes == m.items.changes
      + [ChangeContext(r.1, filePath, changeSummary, changeDetails, relatedQuestions.GetOr([]), now)]
    ensures r.0.items.questions == m.items.questions && r.0.items.explanations == m.items.explanations
      && r.0.items.decisions == m.items.decisions
    ensures r.0.createdAt == m.createdAt && r.0.lastUpdated == now
    ensures WellNumbered(m.items) ==> WellNumbered(r.0.items)
  {
    var id := EntryId("c_", |m.items.changes|);
    var entry := ChangeContext(id, filePath, changeSummary, changeDetails, relatedQuestions.GetOr([]), now);
    (m.(items := m.items.(changes := m.items.changes + [entry]), lastUpdated := now), id)
  }

  /** In a well-numbered store no two questions share an id (likewise for
      the other categories, whose ids differ only in the prefix). */
  lemma QuestionIdsUnique(c: Categories, i: nat, j: nat)
    requires WellNumbered(c)
    requires i < j < |c.questions|
    ensures c.questions[i].id != c.questions[j].id
  {
    assert c.questions[i].id[2..] == NatToString(i);
    assert c.questions[j].id[2..] == NatToString(j);
    if NatToString(i) == NatToString(j) {
      NatToStringInjective(i, j);
    }
  }

  /** `clear_memory`: all four lists emptied, both timestamps reset. */
  function ClearMemory(m: Memory, now: string): (r: Memory)
    ensures r.items == NoItems && WellNumbered(r.items)
    ensures r.createdAt == now && r.lastUpdated == now
  {
    Empty(now)
  }

  /** After clearing, numbering starts again at 0. */
  lemma IdsRestartAfterClear(m: Memory, now: string, question: string, answer: string)
    ensures StoreQuestion(ClearMemory(m, now), question, answer, None, None, now).1 == EntryId("q_", 0)
  {
  }

  // ---------------------------------------------------------------------------
  // Queries
  // ---------------------------------------------------------------------------

  /** Newest first: the timestamp strings in descending order. */
  function NewestFirst<T(!new)>(items: seq<T>, timestamp: T -> string, limit: int): (r: seq<T>)
    ensures SortedDesc(r, (a: T, b: T) => StrLess(timestamp(b), timestamp(a)))
    ensures limit >= 0 ==> |r| == Min(limit, |items|)
    ensures multiset(r) <= multiset(items)
    ensures forall x, y | x in items && x !in r && y in r :: !StrLess(timestamp(y), timestamp(x))
  {
    var above := (a: T, b: T) => StrLess(timestamp(b), timestamp(a));
    var sorted := SortDesc(items, above);
    StrKeyOrder(timestamp);
    SortDescSorted(items, above);
    PrefixSorted(sorted, |Take(sorted, limit)|, above);
    MultisetOfPrefix(sorted, |Take(sorted, limit)|);
    LeftOutNotAbove(sorted, |Take(sorted, limit)|, above);
    forall x | x in items ensures x in sorted {
      assert x in multiset(items);
    }
    Take(sorted, limit)
  }

  lemma MultisetOfPrefix<T>(s: seq<T>, n: nat)
    requires n <= |s|
    ensures multiset(s[..n]) <= multiset(s)
  {
    assert s == s[..n] + s[n..];
  }

  /** `get_recent_items`: each category, newest first, cut to `limit`. */
  function RecentItems(m: Memory, limit: int): (r: Categories)
    ensures limit >= 0 ==>
      && |r.questions| == Min(limit, |m.items.questions|)
      && |r.explanations| == Min(limit, |m.items.explanations|)
      && |r.decisions| == Min(limit, |m.items.decisions|)
      && |r.changes| == Min(limit, |m.items.changes|)
    ensures multiset(r.questions) <= multiset(m.items.questions)
    ensures multiset(r.explanations) <= multiset(m.items.explanations)
    ensures multiset(r.decisions) <= multiset(m.items.decisions)
    ensures multiset(r.changes) <= multiset(m.items.changes)
    ensures forall i, j | 0 <= i < j < |r.questions| :: !StrLess(r.questions[i].timestamp, r.questions[j].timestamp)
    ensures forall i, j | 0 <= i < j < |r.explanations| :: !StrLess(r.explanations[i].timestamp, r.explanations[j].timestamp)
    ensures forall i, j | 0 <= i < j < |r.decisions| :: !StrLess(r.decisions[i].timestamp, r.decisions[j].timestamp)
    ensures forall i, j | 0 <= i < j < |r.changes| :: !StrLess(r.changes[i].timestamp, r.changes[j].timestamp)
    ensures KeepsNewest(m.items.questions, r.questions, QuestionStamp)
    ensures KeepsNewest(m.items.explanations, r.explanations, ExplanationStamp)
    ensures KeepsNewest(m.items.decisions, r.decisions, DecisionStamp)
    ensures KeepsNewest(m.items.changes, r.changes, ChangeStamp)
  {
    Categories(
      NewestFirst(m.items.questions, QuestionStamp, limit),
      NewestFirst(m.items.explanations, ExplanationStamp, limit),
      NewestFirst(m.items.decisions, DecisionStamp, limit),
      NewestFirst(m.items.changes, ChangeStamp, limit))
  }

  /** No item left out of `r` is newer than an item kept in it. */
  predicate KeepsNewest<T(==,!new)>(items: seq<T>, r: seq<T>, timestamp: T -> string) {
    forall x, y | x in items && x !in r && y in r :: !StrLess(timestamp(y), timestamp(x))
  }

  const QuestionStamp := (q: Question) => q.timestamp
  const ExplanationStamp := (e: Explanation) => e.timestamp
  const DecisionStamp := (d: Decision) => d.timestamp
  const ChangeStamp := (c: ChangeContext) => c.timestamp

  /** `any(tag in item_tags for tag in tags)`. */
  predicate SharesTag(itemTags: seq<string>, tags: seq<string>) {
    exists t | t in tags :: t in itemTags
  }

  /** `search_by_tags`: the entries sharing a tag with the query, in stored
      order. Change contexts have no tags, so none is ever returned. */
  function SearchByTags(m: Memory, tags: seq<string>): (r: Categories)
    ensures forall q :: q in r.questions <==> q in m.items.questions && SharesTag(q.tags, tags)
    ensures forall e :: e in r.explanations <==> e in m.items.explanations && SharesTag(e.tags, tags)
    ensures forall d :: d in r.decisions <==> d in m.items.decisions && SharesTag(d.tags, tags)
    ensures r.changes == []
    ensures tags == [] ==> r == NoItems
  {
    var q := (q: Question) => SharesTag(q.tags, tags);
    var e := (e: Explanation) => SharesTag(e.tags, tags);
    var d := (d: Decision) => SharesTag(d.tags, tags);
    if tags == [] then
      FilterKeepsNone(m.items.questions, q);
      FilterKeepsNone(m.items.explanations, e);
      FilterKeepsNone(m.items.decisions, d);
      Categories(Filter(m.items.questions, q), Filter(m.items.explanations, e), Filter(m.items.decisions, d), [])
    else Categories(Filter(m.items.questions, q), Filter(m.items.explanations, e), Filter(m.items.decisions, d), [])
  }

  /** Search keeps the stored order: the result is a subsequence. */
  lemma SearchKeepsOrder(m: Memory, tags: seq<string>)
    ensures IsSubsequence(SearchByTags(m, tags).questions, m.items.questions)
  {
    FilterIsSubsequence(m.items.questions, (q: Question) => SharesTag(q.tags, tags));
  }
}
