// What the classifier hands to the retrieval step: suggested tags
// (`generateTags`), the confidence-banded filter (`generateFilters`), the
// bounded query expansion (`expandQueryWithTaxonomyKeywords`) and the
// general/specific decision (`detectQueryType`).

module Retrieval {
  import opened Text
  import opened QueryNormalizer
  import opened Taxonomy

  // ---------------------------------------------------------------------
  // Tags
  // ---------------------------------------------------------------------

  /** The normal form of each keyword, position by position. */
  function NormalizeAll(kws: seq<string>): (r: seq<string>)
    ensures |r| == |kws|
    ensures forall i :: 0 <= i < |kws| ==> r[i] == NormalizeText(kws[i])
  {
    seq(|kws|, i requires 0 <= i < |kws| => NormalizeText(kws[i]))
  }

  /** The `forEach` over the normalised matched keywords: each one of more
      than two characters that is not yet a tag is appended. */
  function AddTags(tags: seq<string>, normalized: seq<string>): seq<string>
  {
    if normalized == [] then tags
    else AddTag(AddTags(tags, normalized[..|normalized| - 1]), normalized[|normalized| - 1])
  }

  function AddTag(tags: seq<string>, x: string): seq<string> {
    if |x| > 2 && x !in tags then tags + [x] else tags
  }

  /** `generateTags`: the normalised category and subcategory, then the new
      normalised matched keywords, at most ten in all. */
  function Tags(category: string, subcategory: string, matched: seq<string>): seq<string> {
    Take(AddTags([NormalizeText(category), NormalizeText(subcategory)], NormalizeAll(matched)), 10)
  }

  /** The `forEach` callback. */
  method PushTag(tags: seq<string>, keyword: string) returns (r: seq<string>)
    ensures r == AddTag(tags, NormalizeText(keyword))
  {
    var normalized := NormalizeText(keyword);
    r := tags;
    if |normalized| > 2 && normalized !in tags {
      r := r + [normalized];
    }
  }

  /** `generateTags`, with its loop. */
  method GenerateTags(category: string, subcategory: string, matched: seq<string>) returns (tags: seq<string>)
    ensures tags == Tags(category, subcategory, matched)
  {
    ghost var ns := NormalizeAll(matched);
    var start := [NormalizeText(category), NormalizeText(subcategory)];
    var all := start;
    for i := 0 to |matched|
      invariant all == AddTags(start, ns[..i])
    {
      assert ns[..i + 1][..i] == ns[..i];
      all := PushTag(all, matched[i]);
    }
    assert ns[..|matched|] == ns;
    tags := Take(all, 10);
  }

  /** The tags already there stay first; each appended tag is one of the
      normalised keywords, longer than two characters, not seen before. */
  lemma {:induction false} AddTagsShape(tags: seq<string>, normalized: seq<string>)
    ensures var r := AddTags(tags, normalized);
      && |tags| <= |r| && r[..|tags|] == tags
      && (forall i :: |tags| <= i < |r| ==> |r[i]| > 2 && r[i] !in r[..i] && r[i] in normalized)
  {
    if normalized != [] {
      var init := normalized[..|normalized| - 1];
      AddTagsShape(tags, init);
      var t := AddTags(tags, init);
      var r := AddTags(tags, normalized);
      forall i | |tags| <= i < |r| ensures |r[i]| > 2 && r[i] !in r[..i] && r[i] in normalized {
        if i < |t| {
          assert r[..i] == t[..i];
          assert t[i] in init;
        } else {
          assert r[..i] == t;
        }
      }
    }
  }

  /** Every normalised keyword of more than two characters ends up a tag. */
  lemma {:induction false} AddTagsComplete(tags: seq<string>, normalized: seq<string>)
    ensures forall x :: x in normalized && |x| > 2 ==> x in AddTags(tags, normalized)
  {
    if normalized != [] {
      var init := normalized[..|normalized| - 1];
      AddTagsComplete(tags, init);
      forall x | x in normalized && |x| > 2 ensures x in AddTags(tags, normalized) {
        if x in init {
          assert x in AddTags(tags, init);
        } else {
          assert x == normalized[|normalized| - 1];
        }
      }
    }
  }

  /** The suggested tags: at most ten, the normalised category and
      subcategory first, then distinct new normalised matched keywords of
      more than two characters; when the list was not cut at ten, every such
      keyword is there. */
  lemma TagsShape(category: string, subcategory: string, matched: seq<string>)
    ensures var r := Tags(category, subcategory, matched);
      var ns := NormalizeAll(matched);
      && 2 <= |r| <= 10
      && r[0] == NormalizeText(category) && r[1] == NormalizeText(subcategory)
      && (forall i :: 2 <= i < |r| ==> |r[i]| > 2 && r[i] !in r[..i] && r[i] in ns)
      && (|r| < 10 ==> forall x :: x in ns && |x| > 2 ==> x in r)
  {
    var start := [NormalizeText(category), NormalizeText(subcategory)];
    var ns := NormalizeAll(matched);
    TakeTags(start, ns);
    var r := Tags(category, subcategory, matched);
    assert r == Take(AddTags(start, ns), 10);
    assert r[0] == r[..2][0] == start[0];
    assert r[1] == r[..2][1] == start[1];
  }

  lemma TakeTags(start: seq<string>, ns: seq<string>)
    requires |start| == 2
    ensures var r := Take(AddTags(start, ns), 10);
      && 2 <= |r| <= 10 && r[..2] == start
      && (forall i :: 2 <= i < |r| ==> |r[i]| > 2 && r[i] !in r[..i] && r[i] in ns)
      && (|r| < 10 ==> forall x :: x in ns && |x| > 2 ==> x in r)
  {
    AddTagsShape(start, ns);
    AddTagsComplete(start, ns);
    var all := AddTags(start, ns);
    var r := Take(all, 10);
    assert r[..2] == all[..2];
    forall i | 2 <= i < |r| ensures r[..i] == all[..i] {
    }
  }

  // ---------------------------------------------------------------------
  // Filters
  // ---------------------------------------------------------------------

  datatype QueryType = General | Specific

  datatype MatchClause = MatchValue(value: string) | MatchAny(values: seq<string>)

  /** The payload field a filter constrains. */
  datatype FilterKey = TopicCategory | TaxonomyPath | TagsKey

  function KeyName(k: FilterKey): string {
    match k
    case TopicCategory => "topic_category"
    case TaxonomyPath => "taxonomy_path"
    case TagsKey => "tags"
  }

  datatype QdrantFilter = QdrantFilter(key: FilterKey, clause: MatchClause)

  /** `classification.query_type || 'specific'`. */
  function EffectiveType(queryType: Option<QueryType>): QueryType {
    match queryType
    case None => Specific
    case Some(t) => t
  }

  /** `generateFilters`: general queries search the whole category above
      0.3 and everything below; specific queries use the path above 0.7,
      the first five tags (or the category when there are none) above 0.4,
      and the category below. */
  function GenerateFilters(queryType: Option<QueryType>, confidence: real, category: string,
                           taxonomyPath: string, tags: seq<string>): (r: seq<QdrantFilter>)
    ensures |r| <= 1
    ensures r == [] <==> EffectiveType(queryType).General? && confidence <= 0.3
    ensures forall f :: f in r && f.key == TaxonomyPath ==>
      EffectiveType(queryType).Specific? && confidence > 0.7 && f.clause == MatchValue(taxonomyPath)
    ensures forall f :: f in r && f.key == TagsKey ==>
      EffectiveType(queryType).Specific? && 0.4 < confidence <= 0.7
      && f.clause == MatchAny(Take(tags, 5)) && tags != []
    ensures forall f :: f in r && f.key == TopicCategory ==> f.clause == MatchValue(category)
    ensures EffectiveType(queryType).Specific? && confidence > 0.7 ==>
      r == [QdrantFilter(TaxonomyPath, MatchValue(taxonomyPath))]
    ensures EffectiveType(queryType).Specific? && 0.4 < confidence <= 0.7 && tags != [] ==>
      r == [QdrantFilter(TagsKey, MatchAny(Take(tags, 5)))]
    ensures r != [] && (EffectiveType(queryType).General? || confidence <= 0.4
                        || (confidence <= 0.7 && tags == [])) ==>
      r == [QdrantFilter(TopicCategory, MatchValue(category))]
  {
    match EffectiveType(queryType)
    case General =>
      if confidence > 0.3 then [QdrantFilter(TopicCategory, MatchValue(category))]
      else []
    case Specific =>
      if confidence > 0.7 then [QdrantFilter(TaxonomyPath, MatchValue(taxonomyPath))]
      else if confidence > 0.4 then
        if |tags| > 0 then [QdrantFilter(TagsKey, MatchAny(Take(tags, 5)))]
        else [QdrantFilter(TopicCategory, MatchValue(category))]
      else [QdrantFilter(TopicCategory, MatchValue(category))]
  }

  /** How wide a filter list searches: the path is narrowest, then tags,
      then the category, and no filter searches everything. */
  function Breadth(filters: seq<QdrantFilter>): nat {
    if filters == [] then 3
    else match filters[0].key
      case TaxonomyPath => 0
      case TagsKey => 1
      case TopicCategory => 2
  }

  /** More confidence never widens the search, for either query type. */
  lemma FiltersNarrowWithConfidence(queryType: Option<QueryType>, c1: real, c2: real,
                                    category: string, path: string, tags: seq<string>)
    requires c1 <= c2
    ensures Breadth(GenerateFilters(queryType, c2, category, path, tags))
         <= Breadth(GenerateFilters(queryType, c1, category, path, tags))
  {
    var f1 := GenerateFilters(queryType, c1, category, path, tags);
    var f2 := GenerateFilters(queryType, c2, category, path, tags);
    if f2 != [] && f1 != [] {
      assert f1[0] in f1 && f2[0] in f2;
    }
  }

  // ---------------------------------------------------------------------
  // Query expansion
  // ---------------------------------------------------------------------

  /** `Math.max(2, Math.min(5, Math.floor(confidence * 6)))`. */
  function MaxExpansion(confidence: real): (r: nat)
    ensures 2 <= r <= 5
  {
    MaxInt(2, MinInt(5, (confidence * 6.0).Floor))
  }

  /** The filter of `relevantKeywords`: not already in the lower-cased query,
      at least four characters, and no word of it among the query's
      keywords. */
  predicate Relevant(queryLower: string, queryWords: seq<string>, kw: string) {
    && !Contains(queryLower, Lower(kw))
    && |kw| >= 4
    && !(exists w :: w in Split(Lower(kw), ' ') && w in queryWords)
  }

  /** Sorting with `(a, b) => a.length - b.length` is sorting by this key,
      largest first. */
  function ShorterFirst(kw: string): real { -(|kw| as real) }

  /** The relevant subcategory keywords, shortest first, stable. */
  function RelevantKeywords(queryLower: string, queryWords: seq<string>, kws: seq<string>): seq<string> {
    SortDesc(Filter(kws, kw => Relevant(queryLower, queryWords, kw)), ShorterFirst)
  }

  /** The first `limit` relevant keywords, then the sibling keywords when
      they are added, cut again at `limit`. */
  function Expansion(queryLower: string, queryWords: seq<string>, kws: seq<string>,
                     sibling: seq<string>, limit: nat): seq<string> {
    Take(Take(RelevantKeywords(queryLower, queryWords, kws), limit) + sibling, limit)
  }

  /** How many of the expansion keywords come from the subcategory itself. */
  function ChosenCount(queryLower: string, queryWords: seq<string>, kws: seq<string>, limit: nat): nat {
    MinInt(|RelevantKeywords(queryLower, queryWords, kws)|, limit)
  }

  /** Cutting a list at `limit`, appending more and cutting again keeps
      the first part whole and fills up from the second. */
  lemma TakeThenTake<T>(first: seq<T>, more: seq<T>, limit: nat)
    ensures var ks := Take(Take(first, limit) + more, limit);
      var n := MinInt(|first|, limit);
      && n <= |ks| <= limit && |ks| - n <= |more|
      && (forall i :: 0 <= i < n ==> ks[i] == first[i])
      && (forall i :: n <= i < |ks| ==> ks[i] == more[i - n])
  {
  }

  /** The relevant keywords are relevant subcategory keywords, shortest
      first. */
  lemma RelevantKeywordsShape(queryLower: string, queryWords: seq<string>, kws: seq<string>)
    ensures var relevant := RelevantKeywords(queryLower, queryWords, kws);
      && (forall i :: 0 <= i < |relevant| ==> relevant[i] in kws && Relevant(queryLower, queryWords, relevant[i]))
      && (forall i, j :: 0 <= i < j < |relevant| ==> |relevant[i]| <= |relevant[j]|)
  {
    var filtered := Filter(kws, kw => Relevant(queryLower, queryWords, kw));
    var relevant := RelevantKeywords(queryLower, queryWords, kws);
    assert SortedDesc(relevant, ShorterFirst) && multiset(relevant) == multiset(filtered);
    forall i | 0 <= i < |relevant| ensures relevant[i] in kws && Relevant(queryLower, queryWords, relevant[i]) {
      assert relevant[i] in multiset(filtered);
      assert relevant[i] in filtered;
    }
    forall i, j | 0 <= i < j < |relevant| ensures |relevant[i]| <= |relevant[j]| {
      assert ShorterFirst(relevant[i]) >= ShorterFirst(relevant[j]);
    }
  }

  /** The expansion is a shortest-first run of relevant subcategory keywords
      followed by sibling keywords. */
  lemma ExpansionShape(queryLower: string, queryWords: seq<string>, kws: seq<string>,
                       sibling: seq<string>, limit: nat)
    ensures var ks := Expansion(queryLower, queryWords, kws, sibling, limit);
      var n := ChosenCount(queryLower, queryWords, kws, limit);
      && n <= |ks| <= limit && |ks| - n <= |sibling|
      && (forall i :: 0 <= i < n ==> ks[i] in kws && Relevant(queryLower, queryWords, ks[i]))
      && (forall i, j :: 0 <= i < j < n ==> |ks[i]| <= |ks[j]|)
      && (forall i :: n <= i < |ks| ==> ks[i] == sibling[i - n])
  {
    var relevant := RelevantKeywords(queryLower, queryWords, kws);
    RelevantKeywordsShape(queryLower, queryWords, kws);
    TakeThenTake(relevant, sibling, limit);
  }

  /** The sibling that is not the classified subcategory; a missing
      subcategory name differs from every name. */
  predicate OtherSubcategory(subcategory: Option<string>, s: Subcategory) {
    subcategory != Some(s.name)
  }

  /** The first keyword of the first other subcategory of the category,
      kept when it is not in the lower-cased query and longer than four
      characters; nothing for a category with fewer than two
      subcategories. */
  function SiblingKeywords(t: Taxonomy, category: string, subcategory: Option<string>, queryLower: string): (r: seq<string>)
    ensures |r| <= 1
    ensures forall kw :: kw in r ==> |kw| > 4 && !Contains(queryLower, Lower(kw))
  {
    match FindByName(t.categories, CategoryName, category)
    case None => []
    case Some(c) =>
      if |c.subcategories| <= 1 then []
      else
        var others := Filter(c.subcategories, s => OtherSubcategory(subcategory, s));
        if others == [] then []
        else Filter(Take(others[0].keywords, 1), kw => !Contains(queryLower, Lower(kw)) && |kw| > 4)
  }

  /** The first piece of a taxonomy path and, when there is one, the second. */
  function PathCategory(path: string): string {
    SplitOn(path, " > ")[0]
  }

  function PathSubcategory(path: string): Option<string> {
    var pieces := SplitOn(path, " > ");
    if |pieces| > 1 then Some(pieces[1]) else None
  }

  /** The keywords `expandQueryWithTaxonomyKeywords` appends, or None where
      it returns the query early: confidence under 0.2 or a path that does
      not resolve. */
  function ExpansionKeywords(query: string, confidence: real, path: string, t: Taxonomy): (r: Option<seq<string>>)
    ensures r.Some? ==> confidence >= 0.2 && |r.value| <= MaxExpansion(confidence)
    ensures r.Some? <==> (confidence >= 0.2
      && LookupKeywords(t, PathCategory(path), PathSubcategory(path)).Some?)
  {
    if confidence < 0.2 then None
    else
      var category, subcategory := PathCategory(path), PathSubcategory(path);
      match LookupKeywords(t, category, subcategory)
      case None => None
      case Some(kws) =>
        var queryLower := Lower(query);
        var sibling :=
          if confidence > 0.7 && category != "" then SiblingKeywords(t, category, subcategory, queryLower)
          else [];
        Some(Expansion(queryLower, Keywords(query), kws, sibling, MaxExpansion(confidence)))
  }

  /** `expandQuery`: the query, followed by a space and the expansion
      keywords joined by spaces when there are any. */
  function ExpandQuery(query: string, confidence: real, path: string, t: Taxonomy): (r: string)
    ensures |query| <= |r| && r[..|query|] == query
    ensures confidence < 0.2 ==> r == query
    ensures r == query || exists ks :: 1 <= |ks| <= MaxExpansion(confidence) && r == query + " " + Join(ks, " ")
    ensures LookupKeywords(t, PathCategory(path), PathSubcategory(path)).None? ==> r == query
    ensures r != query <==> ExpansionKeywords(query, confidence, path, t).Some?
                            && ExpansionKeywords(query, confidence, path, t).value != []
    ensures r != query ==>
      r == query + " " + Join(ExpansionKeywords(query, confidence, path, t).value, " ")
  {
    match ExpansionKeywords(query, confidence, path, t)
    case None => query
    case Some(ks) => if |ks| > 0 then query + " " + Join(ks, " ") else query
  }

  /** The appended keywords: a shortest-first run of relevant keywords of
      the classified subcategory, then at most one sibling keyword; none of
      them occurs in the lower-cased query and each has at least four
      characters. */
  lemma ExpansionKeywordsShape(query: string, confidence: real, path: string, t: Taxonomy)
    requires ExpansionKeywords(query, confidence, path, t).Some?
    ensures var ks := ExpansionKeywords(query, confidence, path, t).value;
      var kws := LookupKeywords(t, PathCategory(path), PathSubcategory(path)).value;
      var n := ChosenCount(Lower(query), Keywords(query), kws, MaxExpansion(confidence));
      && n <= |ks| <= n + 1
      && (forall i :: 0 <= i < n ==> ks[i] in kws && Relevant(Lower(query), Keywords(query), ks[i]))
      && (forall i, j :: 0 <= i < j < n ==> |ks[i]| <= |ks[j]|)
      && (forall k :: k in ks ==> |k| >= 4 && !Contains(Lower(query), Lower(k)))
  {
    var category, subcategory := PathCategory(path), PathSubcategory(path);
    var kws := LookupKeywords(t, category, subcategory).value;
    var queryLower, queryWords := Lower(query), Keywords(query);
    var sibling :=
      if confidence > 0.7 && category != "" then SiblingKeywords(t, category, subcategory, queryLower)
      else [];
    var limit := MaxExpansion(confidence);
    var ks := Expansion(queryLower, queryWords, kws, sibling, limit);
    assert ks == ExpansionKeywords(query, confidence, path, t).value;
    assert |sibling| <= 1 && forall kw :: kw in sibling ==> |kw| > 4 && !Contains(queryLower, Lower(kw));
    ExpansionPartsShape(queryLower, queryWords, kws, sibling, limit);
  }

  /** The same, for the expansion built from its parts. */
  lemma ExpansionPartsShape(queryLower: string, queryWords: seq<string>, kws: seq<string>,
                            sibling: seq<string>, limit: nat)
    requires |sibling| <= 1 && forall kw :: kw in sibling ==> |kw| > 4 && !Contains(queryLower, Lower(kw))
    ensures var ks := Expansion(queryLower, queryWords, kws, sibling, limit);
      var n := ChosenCount(queryLower, queryWords, kws, limit);
      && n <= |ks| <= n + 1
      && (forall i :: 0 <= i < n ==> ks[i] in kws && Relevant(queryLower, queryWords, ks[i]))
      && (forall i, j :: 0 <= i < j < n ==> |ks[i]| <= |ks[j]|)
      && (forall k :: k in ks ==> |k| >= 4 && !Contains(queryLower, Lower(k)))
  {
    var ks := Expansion(queryLower, queryWords, kws, sibling, limit);
    ExpansionShape(queryLower, queryWords, kws, sibling, limit);
    ExpansionMembers(queryLower, queryWords, kws, sibling, ks, ChosenCount(queryLower, queryWords, kws, limit));
  }

  /** Every keyword of a run of relevant keywords followed by long sibling
      keywords absent from the query is long and absent from the query. */
  lemma ExpansionMembers(queryLower: string, queryWords: seq<string>, kws: seq<string>,
                         sibling: seq<string>, ks: seq<string>, n: nat)
    requires n <= |ks| && |ks| - n <= |sibling|
    requires forall i :: 0 <= i < n ==> Relevant(queryLower, queryWords, ks[i])
    requires forall i :: n <= i < |ks| ==> ks[i] == sibling[i - n]
    requires forall kw :: kw in sibling ==> |kw| > 4 && !Contains(queryLower, Lower(kw))
    ensures forall k :: k in ks ==> |k| >= 4 && !Contains(queryLower, Lower(k))
  {
    forall k | k in ks ensures |k| >= 4 && !Contains(queryLower, Lower(k)) {
      var i :| 0 <= i < |ks| && ks[i] == k;
      if i >= n {
        assert sibling[i - n] in sibling;
      }
    }
  }

  // ---------------------------------------------------------------------
  // General or specific
  // ---------------------------------------------------------------------

  /** The regular expressions of `detectQueryType`, each taken as a test on
      the normalised query: the specific ones, the general ones, and the
      category-word test applied to short queries. */
  datatype Patterns = Patterns(
    specific: seq<string -> bool>,
    general: seq<string -> bool>,
    shortGeneral: string -> bool)

  /** Some pattern of the list accepts the text. */
  predicate AnyPattern(ps: seq<string -> bool>, text: string) {
    exists i :: 0 <= i < |ps| && ps[i](text)
  }

  /** The single words that make a one-word query general. */
  function GeneralWords(): seq<string> {
    ["salud", "educacion", "educaci\U{F3}n", "economia", "econom\U{ED}a", "seguridad",
     "pensiones", "trabajo", "empleo", "vivienda", "medioambiente"]
  }

  /** `detectQueryType`: specific patterns win, then general patterns, then
      a single general word, then a short query naming a category, and
      otherwise the query is specific. */
  function DetectQueryType(query: string, p: Patterns): QueryType {
    var normalized := NormalizeText(query);
    var words := LongWords(normalized);
    if AnyPattern(p.specific, normalized) then Specific
    else if AnyPattern(p.general, normalized) then General
    else if |words| == 1 && words[0] in GeneralWords() then General
    else if |words| <= 4 && p.shortGeneral(normalized) then General
    else Specific
  }

  /** A query of more than four words of three or more characters that no
      general pattern accepts is specific. */
  lemma LongQueryIsSpecific(query: string, p: Patterns)
    requires |Words(query)| > 4
    requires !AnyPattern(p.general, NormalizeText(query))
    ensures DetectQueryType(query, p) == Specific
  {
  }

  /** Only the normal form of the query matters: the query and its
      normalisation get the same type. */
  lemma DetectNormalized(query: string, p: Patterns)
    ensures DetectQueryType(NormalizeText(query), p) == DetectQueryType(query, p)
  {
    NormalizeIdempotent(query);
  }

  /** The accented entries of the general-word list never match: a normalised
      word has no accents. */
  lemma AccentedGeneralWordsUnreachable(query: string)
    ensures forall w :: w in Words(query) ==> w != "educaci\U{F3}n" && w != "econom\U{ED}a"
  {
    var ws := Words(query);
    forall w | w in ws ensures w != "educaci\U{F3}n" && w != "econom\U{ED}a" {
      WordsAreNormal(query, w);
      assert !IsNormChar("educaci\U{F3}n"[7]) && !IsNormChar("econom\U{ED}a"[6]);
    }
  }
}
