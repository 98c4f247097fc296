// `classifyQuery`: the best-scoring subcategory of the taxonomy, its
// confidence, the fallback below the threshold, the tags and the filters,
// memoised per normalised query for five minutes.  The module-level cache
// `Map` is the one field of `ClassificationService`; the clock is the `now`
// argument.

module Classifier {
  import opened Text
  import opened QueryNormalizer
  import opened Taxonomy
  import opened Scoring
  import opened Retrieval

  datatype ClassificationResult = ClassificationResult(
    category: string,
    subcategory: string,
    taxonomyPath: string,
    confidence: real,
    matchedKeywords: seq<string>,
    suggestedTags: seq<string>,
    filters: seq<QdrantFilter>,
    queryType: QueryType)

  datatype CacheEntry = CacheEntry(result: ClassificationResult, timestamp: int)

  /** Five minutes, in milliseconds. */
  const CacheTtl: int := 5 * 60 * 1000

  // ---------------------------------------------------------------------
  // The best match
  // ---------------------------------------------------------------------

  datatype BestMatch = BestMatch(category: string, subcategory: string, score: real, matched: seq<string>)

  /** The starting value of `bestMatch`. */
  const NoMatch := BestMatch("", "", 0.0, [])

  /** The match a leaf would record. */
  function LeafMatch(l: Leaf, qks: seq<string>): BestMatch {
    BestMatch(l.category, l.subcategory, TotalScore(qks, l.keywords), Matched(qks, l.keywords))
  }

  /** The match of every leaf, in order. */
  function Candidates(leaves: seq<Leaf>, qks: seq<string>): (r: seq<BestMatch>)
    ensures |r| == |leaves|
    ensures forall i :: 0 <= i < |leaves| ==> r[i] == LeafMatch(leaves[i], qks)
  {
    seq(|leaves|, i requires 0 <= i < |leaves| => LeafMatch(leaves[i], qks))
  }

  /** One step of the loop: a strictly higher score replaces the best. */
  function BestStep(best: BestMatch, c: BestMatch): BestMatch {
    if c.score > best.score then c else best
  }

  /** The best match after visiting the candidates in order, starting from
      `best`. */
  function BestFrom(best: BestMatch, cs: seq<BestMatch>): BestMatch {
    if cs == [] then best else BestStep(BestFrom(best, cs[..|cs| - 1]), cs[|cs| - 1])
  }

  /** The candidates of every category, category by category. */
  function TaxonomyCandidates(cats: seq<Category>, qks: seq<string>): seq<BestMatch> {
    if cats == [] then []
    else TaxonomyCandidates(cats[..|cats| - 1], qks) + Candidates(CategoryLeaves(cats[|cats| - 1]), qks)
  }

  /** The best match over the whole taxonomy. */
  function BestOf(cats: seq<Category>, qks: seq<string>): BestMatch {
    BestFrom(NoMatch, TaxonomyCandidates(cats, qks))
  }

  lemma {:induction false} BestFromAppend(best: BestMatch, xs: seq<BestMatch>, ys: seq<BestMatch>)
    ensures BestFrom(best, xs + ys) == BestFrom(BestFrom(best, xs), ys)
  {
    if ys != [] {
      var n := |ys|;
      assert (xs + ys)[..|xs + ys| - 1] == xs + ys[..n - 1];
      assert (xs + ys)[|xs + ys| - 1] == ys[n - 1];
      BestFromAppend(best, xs, ys[..n - 1]);
    } else {
      assert xs + ys == xs;
    }
  }

  /** Candidate `i` is the winner: it is the result, no candidate scores
      more, every earlier one scores strictly less, and the score is
      positive. */
  predicate WinsAt(cs: seq<BestMatch>, i: int, b: BestMatch) {
    && 0 <= i < |cs|
    && b == cs[i]
    && b.score > 0.0
    && (forall j :: 0 <= j < |cs| ==> cs[j].score <= b.score)
    && (forall j :: 0 <= j < i ==> cs[j].score < b.score)
  }

  /** The loop keeps the first candidate with the highest score, and keeps
      the empty match when no score is positive. */
  lemma {:induction false} BestFromWins(cs: seq<BestMatch>)
    ensures var b := BestFrom(NoMatch, cs);
      || (b == NoMatch && forall j :: 0 <= j < |cs| ==> cs[j].score <= 0.0)
      || (exists i :: WinsAt(cs, i, b))
  {
    if cs != [] {
      var n := |cs|;
      var init := cs[..n - 1];
      BestFromWins(init);
      var b0 := BestFrom(NoMatch, init);
      var b := BestFrom(NoMatch, cs);
      var c := cs[n - 1];
      assert forall j :: 0 <= j < n - 1 ==> init[j] == cs[j];
      if c.score > b0.score {
        if b0 == NoMatch && forall j :: 0 <= j < n - 1 ==> init[j].score <= 0.0 {
          assert WinsAt(cs, n - 1, b);
        } else {
          var i :| WinsAt(init, i, b0);
          assert WinsAt(cs, n - 1, b);
        }
      } else if b0 == NoMatch && forall j :: 0 <= j < n - 1 ==> init[j].score <= 0.0 {
        assert b == NoMatch;
      } else {
        var i :| WinsAt(init, i, b0);
        assert WinsAt(cs, i, b);
      }
    }
  }

  /** Every candidate is the match of a subcategory of the taxonomy. */
  lemma {:induction false} CandidateOrigin(cats: seq<Category>, qks: seq<string>, k: int)
    requires 0 <= k < |TaxonomyCandidates(cats, qks)|
    ensures exists c, s :: (c in cats && s in c.subcategories
      && TaxonomyCandidates(cats, qks)[k] == LeafMatch(Leaf(c.name, s.name, s.keywords), qks))
  {
    var n := |cats|;
    var init := TaxonomyCandidates(cats[..n - 1], qks);
    if k < |init| {
      CandidateOrigin(cats[..n - 1], qks, k);
      var c, s :| c in cats[..n - 1] && s in c.subcategories
        && init[k] == LeafMatch(Leaf(c.name, s.name, s.keywords), qks);
      assert c in cats;
    } else {
      var c := cats[n - 1];
      var j := k - |init|;
      assert c.subcategories[j] in c.subcategories;
      assert CategoryLeaves(c)[j] == Leaf(c.name, c.subcategories[j].name, c.subcategories[j].keywords);
    }
  }

  /** Over the taxonomy: either no subcategory scores above zero and the
      match stays empty, or the match is that of the first subcategory with
      the highest score, which is a subcategory of the taxonomy with a
      positive score. */
  lemma BestOfWins(cats: seq<Category>, qks: seq<string>)
    ensures var b := BestOf(cats, qks);
      var cs := TaxonomyCandidates(cats, qks);
      || (b == NoMatch && forall j :: 0 <= j < |cs| ==> cs[j].score == 0.0)
      || (exists i :: WinsAt(cs, i, b))
  {
    var cs := TaxonomyCandidates(cats, qks);
    BestFromWins(cs);
    forall j | 0 <= j < |cs| ensures cs[j].score >= 0.0 {
      CandidateOrigin(cats, qks, j);
    }
  }

  /** A recorded match is that of one subcategory of the taxonomy, with its
      own score and matched keywords. */
  lemma BestOfIsSubcategory(cats: seq<Category>, qks: seq<string>)
    ensures var b := BestOf(cats, qks);
      b == NoMatch || (b.score > 0.0 && exists c, s :: (c in cats && s in c.subcategories
        && b == LeafMatch(Leaf(c.name, s.name, s.keywords), qks)))
  {
    BestOfWins(cats, qks);
    var b := BestOf(cats, qks);
    if b != NoMatch {
      var i :| WinsAt(TaxonomyCandidates(cats, qks), i, b);
      CandidateOrigin(cats, qks, i);
    }
  }

  /** The inner loop over the subcategories of one category. */
  method ScanCategory(best: BestMatch, c: Category, qks: seq<string>) returns (r: BestMatch)
    ensures r == BestFrom(best, Candidates(CategoryLeaves(c), qks))
  {
    ghost var cs := Candidates(CategoryLeaves(c), qks);
    r := best;
    for j := 0 to |c.subcategories|
      invariant r == BestFrom(best, cs[..j])
    {
      var sub := c.subcategories[j];
      var score, matched := ScoreKeywordMatches(qks, sub.keywords);
      assert cs[..j + 1][..j] == cs[..j];
      assert cs[j] == BestMatch(c.name, sub.name, score, matched);
      if score > r.score {
        r := BestMatch(c.name, sub.name, score, matched);
      }
    }
    assert cs[..|c.subcategories|] == cs;
  }

  /** The outer loop over the categories. */
  method FindBestMatch(qks: seq<string>, t: Taxonomy) returns (best: BestMatch)
    ensures best == BestOf(t.categories, qks)
  {
    var cats := t.categories;
    best := NoMatch;
    for i := 0 to |cats|
      invariant best == BestOf(cats[..i], qks)
    {
      assert cats[..i + 1][..i] == cats[..i];
      BestFromAppend(NoMatch, TaxonomyCandidates(cats[..i], qks), Candidates(CategoryLeaves(cats[i]), qks));
      best := ScanCategory(best, cats[i], qks);
    }
    assert cats[..|cats|] == cats;
  }

  // ---------------------------------------------------------------------
  // A fresh classification
  // ---------------------------------------------------------------------

  /** The confidence of the best match: computed against the keywords of the
      subcategory looked up by the two names, and 0 when either name is
      empty or the lookup fails. */
  function MatchConfidence(t: Taxonomy, best: BestMatch, qks: seq<string>): real {
    if best.category != "" && best.subcategory != "" then
      match LookupKeywords(t, best.category, Some(best.subcategory))
      case Some(kws) => CalculateConfidence(best.score, best.matched, qks, kws)
      case None => 0.0
    else 0.0
  }

  function PathOf(category: string, subcategory: string): string {
    category + " > " + subcategory
  }

  /** The result built from a confidence and a best match: the best match
      at or above the threshold, the fallback category and "General" below
      it. */
  function Outcome(t: Taxonomy, best: BestMatch, confidence: real, queryType: QueryType): ClassificationResult {
    var keep := confidence >= t.metadata.confidenceThreshold;
    var category := if keep then best.category else t.metadata.fallbackCategory;
    var subcategory := if keep then best.subcategory else "General";
    var tags := Tags(category, subcategory, best.matched);
    var path := PathOf(category, subcategory);
    ClassificationResult(category, subcategory, path, confidence, best.matched, tags,
      GenerateFilters(Some(queryType), confidence, category, path, tags), queryType)
  }

  /** The classification `classifyQuery` computes on a cache miss. */
  function Classified(query: string, queryType: QueryType, t: Taxonomy): ClassificationResult {
    var qks := Keywords(query);
    var best := BestOf(t.categories, qks);
    Outcome(t, best, MatchConfidence(t, best, qks), queryType)
  }

  /** The answer to a blank query. */
  function Blank(t: Taxonomy): ClassificationResult {
    var fallback := t.metadata.fallbackCategory;
    ClassificationResult(fallback, "General", PathOf(fallback, "General"), 0.0, [], [], [], General)
  }

  /** `!query.trim()`. */
  predicate IsBlank(query: string) {
    Trim(query) == []
  }

  /** `providedQueryType || detectQueryType(query)`. */
  function ChosenType(query: string, provided: Option<QueryType>, p: Patterns): QueryType {
    match provided
    case Some(qt) => qt
    case None => DetectQueryType(query, p)
  }

  /** A cache entry is still fresh at `now`. */
  predicate Fresh(e: CacheEntry, now: int) {
    now - e.timestamp < CacheTtl
  }

  /** One call of `classifyQuery`: its result and the cache after it. */
  function ClassifyStep(cache: map<string, CacheEntry>, query: string, provided: Option<QueryType>,
                        now: int, t: Taxonomy, p: Patterns): (ClassificationResult, map<string, CacheEntry>) {
    if IsBlank(query) then (Blank(t), cache)
    else
      var queryType := ChosenType(query, provided, p);
      var key := NormalizeText(query);
      if key in cache && Fresh(cache[key], now) then (cache[key].result.(queryType := queryType), cache)
      else
        var r := Classified(query, queryType, t);
        (r, cache[key := CacheEntry(r, now)])
  }

  // ---------------------------------------------------------------------
  // Properties of one classification
  // ---------------------------------------------------------------------

  /** The classification depends on the query only through its normal
      form, which is the cache key. */
  lemma ClassifiedOfNormalized(query: string, queryType: QueryType, t: Taxonomy)
    ensures Classified(NormalizeText(query), queryType, t) == Classified(query, queryType, t)
  {
    KeywordsOfNormalized(query);
  }

  /** Two queries with the same normal form, such as one with accents and
      one without, are classified alike. */
  lemma SameNormalFormSameResult(q1: string, q2: string, queryType: QueryType, t: Taxonomy)
    requires NormalizeText(q1) == NormalizeText(q2)
    ensures Classified(q1, queryType, t) == Classified(q2, queryType, t)
  {
    ClassifiedOfNormalized(q1, queryType, t);
    ClassifiedOfNormalized(q2, queryType, t);
  }

  /** The query type only decides the filters and the `query_type` field. */
  lemma TypeOnlyShapesFilters(query: string, qt1: QueryType, qt2: QueryType, t: Taxonomy)
    ensures Classified(query, qt1, t).(filters := [], queryType := General)
         == Classified(query, qt2, t).(filters := [], queryType := General)
  {
  }

  /** In a well-formed taxonomy the confidence lies in [0, 1]: the matched
      keywords are the subcategory's own, so every one is an exact match and
      the exact-match cap applies. */
  lemma ConfidenceInUnitInterval(query: string, queryType: QueryType, t: Taxonomy)
    requires WellFormed(t)
    ensures 0.0 <= Classified(query, queryType, t).confidence <= 1.0
  {
    var qks := Keywords(query);
    var best := BestOf(t.categories, qks);
    BestOfIsSubcategory(t.categories, qks);
    if best != NoMatch && best.category != "" && best.subcategory != "" {
      var c, s :| c in t.categories && s in c.subcategories
        && best == LeafMatch(Leaf(c.name, s.name, s.keywords), qks);
      LookupSubcategory(t, c, s);
      MatchResult(qks, s.keywords);
      ConfidenceOfOwnKeywords(best.score, best.matched, qks, s.keywords);
    }
  }

  /** The final category: the fallback category and "General" below the
      threshold; at or above a positive threshold, the best match, which
      is a subcategory of the taxonomy together with its own matched
      keywords; the path joins the two names with " > ". */
  lemma ClassifiedCategory(query: string, queryType: QueryType, t: Taxonomy)
    ensures var r := Classified(query, queryType, t);
      && r.taxonomyPath == r.category + " > " + r.subcategory
      && (r.confidence < t.metadata.confidenceThreshold ==>
            r.category == t.metadata.fallbackCategory && r.subcategory == "General")
      && (r.confidence >= t.metadata.confidenceThreshold > 0.0 ==>
            exists c, s :: (c in t.categories && s in c.subcategories
              && r.category == c.name && r.subcategory == s.name
              && r.matchedKeywords == Matched(Keywords(query), s.keywords)))
      && (r.confidence >= t.metadata.confidenceThreshold > 0.0 ==>
            var best := BestOf(t.categories, Keywords(query));
            best != NoMatch && r.category == best.category && r.subcategory == best.subcategory)
  {
    var qks := Keywords(query);
    var best := BestOf(t.categories, qks);
    BestOfIsSubcategory(t.categories, qks);
    var r := Classified(query, queryType, t);
    if r.confidence >= t.metadata.confidenceThreshold > 0.0 {
      assert best != NoMatch;
      var c, s :| c in t.categories && s in c.subcategories
        && best == LeafMatch(Leaf(c.name, s.name, s.keywords), qks);
      assert r.category == c.name && r.subcategory == s.name;
    }
  }

  /** The matched keywords are distinct keywords of the chosen subcategory. */
  lemma MatchedKeywordsDistinct(query: string, queryType: QueryType, t: Taxonomy)
    ensures var r := Classified(query, queryType, t);
      && NoDuplicates(r.matchedKeywords)
      && (r.matchedKeywords != [] ==> exists c, s :: (c in t.categories && s in c.subcategories
            && forall k :: k in r.matchedKeywords ==> k in s.keywords))
  {
    var qks := Keywords(query);
    var best := BestOf(t.categories, qks);
    BestOfIsSubcategory(t.categories, qks);
    if best != NoMatch {
      var c, s :| c in t.categories && s in c.subcategories
        && best == LeafMatch(Leaf(c.name, s.name, s.keywords), qks);
      MatchResult(qks, s.keywords);
    }
  }

  // ---------------------------------------------------------------------
  // Properties of the cache
  // ---------------------------------------------------------------------

  /** Every entry holds the fresh classification of its own key, made for
      the query type it records. */
  predicate CacheValid(cache: map<string, CacheEntry>, t: Taxonomy) {
    forall k :: k in cache ==> cache[k].result == Classified(k, cache[k].result.queryType, t)
  }

  /** A blank query gets the fallback answer, with confidence 0, no filters
      and the general type, and the cache is left alone. */
  lemma BlankQuery(cache: map<string, CacheEntry>, query: string, provided: Option<QueryType>,
                   now: int, t: Taxonomy, p: Patterns)
    requires IsBlank(query)
    ensures var (r, after) := ClassifyStep(cache, query, provided, now, t, p);
      && after == cache
      && r.category == t.metadata.fallbackCategory && r.subcategory == "General"
      && r.confidence == 0.0 && r.filters == [] && r.queryType == General
  {
  }

  /** A fresh entry is returned with only its query type replaced: its
      filters were made for the type of the call that stored it. */
  lemma CacheHit(cache: map<string, CacheEntry>, query: string, provided: Option<QueryType>,
                 now: int, t: Taxonomy, p: Patterns)
    requires !IsBlank(query)
    requires NormalizeText(query) in cache && Fresh(cache[NormalizeText(query)], now)
    ensures var (r, after) := ClassifyStep(cache, query, provided, now, t, p);
      var e := cache[NormalizeText(query)].result;
      && after == cache
      && r == e.(queryType := ChosenType(query, provided, p))
      && r.filters == e.filters
  {
  }

  /** Under a valid cache the entry found for a query is the fresh
      classification of that query for the stored type. */
  lemma ValidEntry(cache: map<string, CacheEntry>, query: string, t: Taxonomy)
    requires CacheValid(cache, t)
    requires NormalizeText(query) in cache
    ensures var e := cache[NormalizeText(query)].result;
      e == Classified(query, e.queryType, t)
  {
    var e := cache[NormalizeText(query)].result;
    ClassifiedOfNormalized(query, e.queryType, t);
  }

  /** A miss classifies afresh and stores the result under the normal form
      of the query, stamped with the current time. */
  lemma CacheMiss(cache: map<string, CacheEntry>, query: string, provided: Option<QueryType>,
                  now: int, t: Taxonomy, p: Patterns)
    requires !IsBlank(query)
    requires !(NormalizeText(query) in cache && Fresh(cache[NormalizeText(query)], now))
    ensures var (r, after) := ClassifyStep(cache, query, provided, now, t, p);
      && r == Classified(query, ChosenType(query, provided, p), t)
      && after == cache[NormalizeText(query) := CacheEntry(r, now)]
  {
  }

  /** Every call keeps the cache valid. */
  lemma StepKeepsCacheValid(cache: map<string, CacheEntry>, query: string, provided: Option<QueryType>,
                            now: int, t: Taxonomy, p: Patterns)
    requires CacheValid(cache, t)
    ensures CacheValid(ClassifyStep(cache, query, provided, now, t, p).1, t)
  {
    if !IsBlank(query) {
      var key := NormalizeText(query);
      var qt := ChosenType(query, provided, p);
      if !(key in cache && Fresh(cache[key], now)) {
        var r := Classified(query, qt, t);
        ClassifiedOfNormalized(query, qt, t);
        assert r.queryType == qt;
        var after := cache[key := CacheEntry(r, now)];
        assert ClassifyStep(cache, query, provided, now, t, p).1 == after;
        forall k | k in after ensures after[k].result == Classified(k, after[k].result.queryType, t) {
          if k != key {
            assert after[k] == cache[k];
          }
        }
      }
    }
  }

  /** Asking the same question again at the same instant gives the same
      answer and leaves the cache as the first call left it. */
  lemma RepeatAtOnce(cache: map<string, CacheEntry>, query: string, provided: Option<QueryType>,
                     now: int, t: Taxonomy, p: Patterns)
    ensures var (r1, c1) := ClassifyStep(cache, query, provided, now, t, p);
      ClassifyStep(c1, query, provided, now, t, p) == (r1, c1)
  {
  }

  /** After a miss, the same question within five minutes is answered from
      the cache with the same result. */
  lemma RepeatAfterMiss(cache: map<string, CacheEntry>, query: string, provided: Option<QueryType>,
                        now: int, later: int, t: Taxonomy, p: Patterns)
    requires !IsBlank(query)
    requires !(NormalizeText(query) in cache && Fresh(cache[NormalizeText(query)], now))
    requires later < now + CacheTtl
    ensures var (r1, c1) := ClassifyStep(cache, query, provided, now, t, p);
      ClassifyStep(c1, query, provided, later, t, p) == (r1, c1)
  {
  }

  // ---------------------------------------------------------------------
  // The service and its cache
  // ---------------------------------------------------------------------

  datatype CacheStats = CacheStats(totalEntries: nat, validEntries: nat, expiredEntries: nat, cacheTtlMinutes: int)

  /** The keys whose entries are fresh at `now`. */
  function FreshKeys(cache: map<string, CacheEntry>, now: int): set<string> {
    set k | k in cache && Fresh(cache[k], now)
  }

  /** The loop of `getCacheStats`: each entry counted once, as valid while
      fresh and as expired otherwise. */
  method CountEntries(entries: map<string, CacheEntry>, now: int) returns (valid: nat, expired: nat)
    ensures valid == |FreshKeys(entries, now)|
    ensures valid + expired == |entries|
  {
    ghost var live := FreshKeys(entries, now);
    valid, expired := 0, 0;
    var remaining := entries.Keys;
    ghost var seen: set<string> := {};
    while remaining != {}
      invariant seen + remaining == entries.Keys && seen !! remaining
      invariant valid == |seen * live|
      invariant valid + expired == |seen|
      decreases |remaining|
    {
      var k :| k in remaining;
      if now - entries[k].timestamp < CacheTtl {
        assert k in live;
        assert (seen + {k}) * live == seen * live + {k};
        valid := valid + 1;
      } else {
        assert k !in live;
        assert (seen + {k}) * live == seen * live;
        expired := expired + 1;
      }
      assert k !in seen;
      assert (seen + {k}) + (remaining - {k}) == seen + remaining;
      seen := seen + {k};
      remaining := remaining - {k};
    }
    assert seen * live == live;
    assert |entries.Keys| == |entries|;
  }

  class ClassificationService {
    const taxonomy: Taxonomy
    const patterns: Patterns
    var cache: map<string, CacheEntry>

    constructor (t: Taxonomy, p: Patterns)
      ensures taxonomy == t && patterns == p && cache == map[]
    {
      taxonomy := t;
      patterns := p;
      cache := map[];
    }

    /** `classifyQuery(query, providedQueryType)` at time `now`. */
    method ClassifyQuery(query: string, provided: Option<QueryType>, now: int) returns (r: ClassificationResult)
      modifies this
      ensures (r, cache) == ClassifyStep(old(cache), query, provided, now, taxonomy, patterns)
    {
      if Trim(query) == [] {
        r := Blank(taxonomy);
        return;
      }
      var queryType := if provided.Some? then provided.value else DetectQueryType(query, patterns);
      assert queryType == ChosenType(query, provided, patterns);
      var key := NormalizeText(query);
      var entries := cache;
      if key in entries && now - entries[key].timestamp < CacheTtl {
        r := entries[key].result.(queryType := queryType);
        return;
      }
      r := Classify(query, queryType);
      cache := entries[key := CacheEntry(r, now)];
    }

    /** The body of `classifyQuery` after a cache miss. */
    method Classify(query: string, queryType: QueryType) returns (r: ClassificationResult)
      ensures r == Classified(query, queryType, taxonomy)
    {
      var qks := ExtractKeywords(query);
      var best := FindBestMatch(qks, taxonomy);
      var confidence := MatchConfidence(taxonomy, best, qks);
      var keep := confidence >= taxonomy.metadata.confidenceThreshold;
      var category := if keep then best.category else taxonomy.metadata.fallbackCategory;
      var subcategory := if keep then best.subcategory else "General";
      var tags := GenerateTags(category, subcategory, best.matched);
      var path := PathOf(category, subcategory);
      var filters := GenerateFilters(Some(queryType), confidence, category, path, tags);
      r := ClassificationResult(category, subcategory, path, confidence, best.matched, tags, filters, queryType);
    }

    /** `clearCache`. */
    method ClearCache()
      modifies this
      ensures cache == map[]
    {
      cache := map[];
    }

    /** `getCacheStats` at time `now`: every entry is counted once, as
        valid or as expired. */
    method GetCacheStats(now: int) returns (stats: CacheStats)
      ensures stats.totalEntries == |cache|
      ensures stats.validEntries == |FreshKeys(cache, now)|
      ensures stats.validEntries + stats.expiredEntries == stats.totalEntries
      ensures stats.cacheTtlMinutes == 5
    {
      var valid, expired := CountEntries(cache, now);
      stats := CacheStats(|cache|, valid, expired, CacheTtl / (60 * 1000));
    }
  }
}
