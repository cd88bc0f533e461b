/**
 * Quiz listing (`GET /api/quiz`): the query parameters choose a category
 * filter, a limit and the random or the deterministic path; the deterministic
 * path keeps the active quizzes of the category, newest first, and truncates.
 * The store's `$sample` stage is a parameter of the model.
 */
module QuizList {
  import opened Wrappers
  import opened Text
  import opened Numbers
  import opened Quizzes

  /** The query string; `None` is a parameter that is absent. */
  datatype ListParams = ListParams(category: Option<string>, limit: Option<string>, random: Option<string>)

  /** `parseInt(limit || "0")` compared with 0: the limit, when it is a
      positive number. An absent, empty or non-numeric parameter means no limit. */
  function PositiveLimit(p: ListParams): (r: Option<nat>)
    ensures p.limit.None? ==> r.None?
    ensures p.limit.Some? && (forall i :: 0 <= i < |p.limit.value| ==> !IsDecimalDigit(p.limit.value[i])) ==> r.None?
    ensures r.Some? ==> r.value > 0 && p.limit.Some? && ParseInt(p.limit.value) == Some(r.value as int)
    ensures p.limit.Some? && ParseInt(p.limit.value).Some? && ParseInt(p.limit.value).value > 0 ==> r.Some?
  {
    var text := if p.limit.None? || p.limit.value == "" then "0" else p.limit.value;
    ParseIntZero();
    match ParseInt(text)
    case Some(n) => if n > 0 then Some(n) else None
    case None => None
  }

  lemma ParseIntZero()
    ensures ParseInt("0") == Some(0)
  {
    assert NatToString(0) == "0";
    ParseIntNatToString(0);
  }

  /** The category put into the query: only one of the two known values. */
  function CategoryFilter(p: ListParams): (r: Option<string>)
    ensures r.Some? <==> p.category.Some? && KnownCategory(p.category.value)
    ensures r.Some? ==> r == p.category
  {
    if p.category.Some? && p.category.value != "" && KnownCategory(p.category.value) then p.category else None
  }

  /** Which query runs. */
  datatype Plan =
    | Sample(category: Option<string>, size: nat)           // `$match` then `$sample`
    | Scan(category: Option<string>, limit: Option<nat>)    // `find`, sort, optional `limit`

  function PlanFor(p: ListParams): (r: Plan)
    ensures r.Sample? <==> p.random == Some("true") && PositiveLimit(p).Some?
    ensures r.category == CategoryFilter(p)
    ensures r.Sample? ==> r.size > 0 && Some(r.size) == PositiveLimit(p)
    ensures r.Scan? ==> r.limit == PositiveLimit(p)
  {
    var lim := PositiveLimit(p);
    if p.random == Some("true") && lim.Some? then Sample(CategoryFilter(p), lim.value)
    else Scan(CategoryFilter(p), lim)
  }

  /** The query document `{ isActive: true, category? }`. */
  predicate Selected(q: QuizDoc, category: Option<string>) {
    q.isActive && (category.Some? ==> q.category == category.value)
  }

  /** The documents the query matches, in store order. */
  function Select(qs: seq<QuizDoc>, category: Option<string>): (r: seq<QuizDoc>)
    ensures forall q :: multiset(r)[q] == if Selected(q, category) then multiset(qs)[q] else 0
    ensures |r| <= |qs|
  {
    if qs == [] then []
    else
      assert qs == [qs[0]] + qs[1..];
      (if Selected(qs[0], category) then [qs[0]] else []) + Select(qs[1..], category)
  }

  /** `sort({ createdAt: -1 })`: no document is newer than one before it. */
  predicate NewestFirst(s: seq<QuizDoc>) {
    forall i, j :: 0 <= i < j < |s| ==> s[i].createdAt >= s[j].createdAt
  }

  function Insert(q: QuizDoc, s: seq<QuizDoc>): (r: seq<QuizDoc>)
    requires NewestFirst(s)
    ensures NewestFirst(r)
    ensures multiset(r) == multiset(s) + multiset{q}
    ensures |r| == |s| + 1
    ensures r[0] == q || (s != [] && r[0] == s[0])
  {
    if s == [] || q.createdAt >= s[0].createdAt then [q] + s
    else
      assert s == [s[0]] + s[1..];
      [s[0]] + Insert(q, s[1..])
  }

  /** The documents newest first: a permutation of the input. */
  function SortNewest(s: seq<QuizDoc>): (r: seq<QuizDoc>)
    ensures NewestFirst(r)
    ensures multiset(r) == multiset(s)
    ensures |r| == |s|
  {
    if s == [] then []
    else
      assert s == [s[0]] + s[1..];
      Insert(s[0], SortNewest(s[1..]))
  }

  function Min(a: nat, b: nat): nat {
    if a < b then a else b
  }

  /** `cursor.limit(n)` when a positive limit was given. */
  function Truncate(s: seq<QuizDoc>, limit: Option<nat>): (r: seq<QuizDoc>)
    ensures limit.None? ==> r == s
    ensures limit.Some? ==> |r| == if limit.value < |s| then limit.value else |s|
    ensures r <= s
    ensures multiset(r) <= multiset(s)
  {
    if limit.Some? && limit.value < |s| then
      assert s == s[..limit.value] + s[limit.value..];
      s[..limit.value]
    else s
  }

  /** The deterministic path: the matching documents, newest first, at most
      `limit` of them, and none left out that is newer than one kept. */
  function ScanQuery(store: seq<QuizDoc>, category: Option<string>, limit: Option<nat>): (r: seq<QuizDoc>)
    ensures forall q :: q in r ==> q in store && Selected(q, category)
    ensures NewestFirst(r)
    ensures limit.None? ==> forall q :: multiset(r)[q] == if Selected(q, category) then multiset(store)[q] else 0
    ensures limit.Some? ==> |r| <= limit.value
    ensures limit.Some? ==> |r| == Min(limit.value, |Select(store, category)|)
    ensures multiset(r) <= multiset(Select(store, category))
    ensures forall q, i :: q in store && Selected(q, category) && q !in r && 0 <= i < |r| ==>
      r[i].createdAt >= q.createdAt
  {
    var sorted := SortNewest(Select(store, category));
    SortedMembers(store, category);
    var r := Truncate(sorted, limit);
    PrefixKeepsNewest(sorted, |r|);
    r
  }

  /** The sorted matches hold exactly the matching documents of the store. */
  lemma SortedMembers(store: seq<QuizDoc>, category: Option<string>)
    ensures forall q :: q in SortNewest(Select(store, category)) <==> q in store && Selected(q, category)
  {
    var sorted := SortNewest(Select(store, category));
    forall q ensures q in sorted <==> q in store && Selected(q, category) {
      assert q in sorted <==> multiset(sorted)[q] > 0;
      assert q in store <==> multiset(store)[q] > 0;
    }
  }

  /** A prefix of a newest-first list leaves out nothing newer than what it keeps. */
  lemma PrefixKeepsNewest(sorted: seq<QuizDoc>, n: nat)
    requires NewestFirst(sorted) && n <= |sorted|
    ensures forall q, i :: q in sorted && q !in sorted[..n] && 0 <= i < n ==> sorted[i].createdAt >= q.createdAt
  {
    forall q, i | q in sorted && q !in sorted[..n] && 0 <= i < n
      ensures sorted[i].createdAt >= q.createdAt
    {
      assert sorted == sorted[..n] + sorted[n..];
      assert q in sorted[n..];
      var k :| 0 <= k < |sorted| - n && sorted[n..][k] == q;
      assert sorted[n + k] == q;
    }
  }

  /** One entry of the reply: `_id` as a string, `imageUrl || ""`. */
  datatype Listed = Listed(id: QuizId, question: string, options: seq<string>, correctAnswerIndex: real,
                           explanation: string, category: string, imageUrl: string)

  function Format(q: QuizDoc): (l: Listed)
    ensures l.id == q.id && l.question == q.question && l.options == q.options
    ensures l.correctAnswerIndex == q.correctAnswerIndex && l.explanation == q.explanation
    ensures l.category == q.category
    ensures l.imageUrl == if q.imageUrl.Some? then q.imageUrl.value else ""
  {
    Listed(q.id, q.question, q.options, q.correctAnswerIndex, q.explanation, q.category, q.imageUrl.GetOr(""))
  }

  function FormatAll(qs: seq<QuizDoc>): (r: seq<Listed>)
    ensures |r| == |qs| && forall i :: 0 <= i < |qs| ==> r[i] == Format(qs[i])
  {
    seq(|qs|, i requires 0 <= i < |qs| => Format(qs[i]))
  }

  datatype ListReply = ListReply(quizzes: seq<Listed>, count: nat)

  /** The `$sample` stage: given the matching documents and a size, the
      documents the store picks. */
  type Sampler = (seq<QuizDoc>, nat) -> seq<QuizDoc>

  /** The documents the query returns. The random path hands the matching
      documents to `sample`. */
  function Found(store: seq<QuizDoc>, p: ListParams, sample: Sampler): (r: seq<QuizDoc>)
    ensures PlanFor(p).Scan? ==> r == ScanQuery(store, CategoryFilter(p), PositiveLimit(p))
    ensures PlanFor(p).Sample? ==> r == sample(Select(store, CategoryFilter(p)), PositiveLimit(p).value)
  {
    match PlanFor(p)
    case Sample(category, size) => sample(Select(store, category), size)
    case Scan(category, limit) => ScanQuery(store, category, limit)
  }

  /** The route: the found documents, formatted, and their number. */
  function Get(store: seq<QuizDoc>, p: ListParams, sample: Sampler): (r: ListReply)
    ensures r.count == |r.quizzes|
    ensures r.quizzes == FormatAll(Found(store, p, sample))
  {
    var out := FormatAll(Found(store, p, sample));
    ListReply(out, |out|)
  }

  /** A positive numeral is read back as that limit. */
  lemma NumeralLimit(category: Option<string>, n: nat, random: Option<string>)
    requires n > 0
    ensures PositiveLimit(ListParams(category, Some(NatToString(n)), random)) == Some(n)
  {
    ParseIntNatToString(n);
  }

  /** A category other than the two known ones is ignored: the reply is the
      one for no category at all. */
  lemma UnknownCategoryIgnored(store: seq<QuizDoc>, p: ListParams, sample: Sampler)
    requires p.category.Some? && !KnownCategory(p.category.value)
    ensures Get(store, p, sample) == Get(store, p.(category := None), sample)
  {
  }

  /** `random=true` without a positive limit takes the deterministic path. */
  lemma RandomNeedsLimit(store: seq<QuizDoc>, p: ListParams, sample: Sampler)
    requires p.limit.None?
    ensures Get(store, p, sample) == Get(store, p.(random := None), sample)
  {
  }

  /** The store's `$sample` returns some of the documents it is given. */
  ghost predicate DrawsFrom(sample: Sampler) {
    forall s, n :: multiset(sample(s, n)) <= multiset(s)
  }

  /** Whichever path runs, every returned document is an active stored quiz
      of the requested known category, given a sampler that draws from its input. */
  lemma FoundAreSelected(store: seq<QuizDoc>, p: ListParams, sample: Sampler)
    requires DrawsFrom(sample)
    ensures forall q :: q in Found(store, p, sample) ==> q in store && Selected(q, CategoryFilter(p))
  {
    if PlanFor(p).Sample? {
      var sel := Select(store, CategoryFilter(p));
      var found := Found(store, p, sample);
      forall q | q in found
        ensures q in store && Selected(q, CategoryFilter(p))
      {
        assert multiset(found)[q] > 0;
        assert multiset(sel)[q] > 0;
        assert multiset(store)[q] > 0;
      }
    }
  }
}
