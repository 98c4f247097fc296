# Query classification and answer evaluation of the program-comparison chatbot

This project is a Dafny model of two parts of the chatbot that answers citizens' questions about the government programmes of presidential candidates.

1. **The query preprocessor** (`lib/query-preprocessor.ts`). It classifies a citizen's query into a `Category > Subcategory` path of the topic taxonomy, scores its confidence, derives search tags and the graduated vector-database filters, may expand the query with taxonomy keywords, and keeps a five-minute cache of classifications.
2. **The offline test harness** (`scripts/`). It has three parts:
   - The question parser turns the markdown list of test questions into records.
   - The hybrid evaluator grades one chatbot answer from heuristic and pattern checks together with the score of a language-model judge.
   - The session logger accumulates graded answers into session statistics, per-category performance, a failure analysis and recommendations.

## Modules

- `Text`: JavaScript's string and array built-ins that the source relies on.
  - `toLowerCase`, `trim`, `split`/`join`, `includes` and `slice`.
  - `[...new Set(xs)]` is `Dedup`.
  - The comparator sorts are `SortDesc`, a stable insertion sort by a real key, largest first.
- `QueryNormalizer`: `normalizeText`, `extractKeywords` and their properties.
  - The output is in a normal form: small ASCII letters, digits, `_`, and single spaces.
  - Normalising is idempotent and ignores case and accents.
  - Keywords are the words of three or more characters followed by the bigrams.
- `Taxonomy`: the taxonomy as a value.
  - Categories and their subcategories are sequences in the insertion order of the JSON object.
  - It includes lookups by name and the mock taxonomy of the test suite.
- `Scoring`: `scoreKeywordMatches` (the nested loop as methods proved against sums over prefixes) and `calculateConfidence`.
- `Retrieval`: `generateTags`, `generateFilters`, `expandQueryWithTaxonomyKeywords` and `detectQueryType`.
- `Classifier`: `classifyQuery`.
  - The best-match search is a loop over candidates, proved against a left fold.
  - The two outcomes are the fallback category and the blank query.
  - The cache is a `map` field of the `ClassificationService` class. Each call is related to a pure step function, `ClassifyStep`, and the cache invariant is proved about that function.
- `HybridEvaluator`: the deterministic part of `HybridEvaluator.evaluate`.
  - The four heuristic checks and the four pattern checks with their points, and the verdict.
  - The issue and recommendation lists, and the 70/20/10 weighting.
- `Grouping`: the insertion-ordered `Map<K, V[]>` grouping idiom of the session logger, with its correctness lemma.
- `QuestionParsing`: the `QuestionParser` class.
  - The line loop is proved against a fold over the lines.
  - Also: the category map, the expected topics, the difficulty assessment and the getters.
- `TestLogging`: the `TestLogger` class.
  - Its results document is one datatype value, a field the methods reassign.
  - The running statistics, the category performance, the failure analysis and the recommendations are each a method proved equal to a specification function, with lemmas about the function.

Queries, keywords and texts are `seq<char>`. Scores and percentages are `real`. Times are milliseconds as `int`, passed in by the caller.

The regular expressions of `detectQueryType` are parameters, as `Patterns`. So is the emoji-stripping header expression of the question parser, as `headerName`.

The language-model judge's evaluation is an input value, `AiEvaluation`.

## Model

| member | source | states |
|---|---|---|
| Text.Lower | lib/query-preprocessor.ts:52 | lower-casing keeps the length and maps every character on its own; the result has no ASCII or Latin-1 capitals |
| Text.LowerIdempotent | lib/query-preprocessor.ts:52 | lower-casing twice is lower-casing once |
| Text.TrimShape | lib/query-preprocessor.ts:57 | a trimmed string neither starts nor ends with white space, and it is empty exactly when the input is all white space |
| Text.SplitJoin | lib/query-preprocessor.ts:65 | joining the pieces of a split with the separator gives back the string |
| Text.Dedup | lib/query-preprocessor.ts:115 | `new Set` keeps exactly the elements of the input, each once, never lengthening it |
| Text.DedupPrefix | lib/query-preprocessor.ts:115 | deduplication keeps first occurrences in order: extending the input only appends to the result |
| Text.DedupPrefixes | scripts/hybrid-evaluator.ts:112 | for three lists in a row, deduplicating the whole begins with the deduplicated first list and with the deduplicated first two |
| Text.Take | lib/query-preprocessor.ts:203 | `slice(0, n)` is the prefix of length min(n, length) |
| Text.SortDesc | lib/query-preprocessor.ts:343 | the comparator sort returns a permutation of the input, sorted by the key, largest first |
| Text.SortDescEnds | scripts/test-logger.ts:259-271 | the first element of the sorted list has the largest key of the input and the last the smallest |
| Text.SortDescFirst | scripts/test-logger.ts:259 | the stable sort's first element is the first element of the input with the largest key |
| Text.SortDescLast | scripts/test-logger.ts:259 | the stable sort's last element is the last element of the input with the smallest key |
| Text.TopOfSorted | scripts/test-logger.ts:253-255 | the first n after sorting come from the input in non-increasing key order, and any element left out has a key no larger than all those kept |
| QueryNormalizer.Decompose | lib/query-preprocessor.ts:53 | NFD of a character is the character itself or a small ASCII letter followed by one combining mark; ASCII characters decompose to themselves |
| QueryNormalizer.NfdAppend | lib/query-preprocessor.ts:53 | decomposition works character by character |
| QueryNormalizer.PunctuationToSpace | lib/query-preprocessor.ts:55 | every character that is neither a word character nor white space becomes a space, and the rest stay |
| QueryNormalizer.CollapseShape | lib/query-preprocessor.ts:56 | after collapsing there are no two spaces in a row; every character is a space or a non-space of the input, and the result starts with a space exactly when the input starts with white space |
| QueryNormalizer.NormalizeTextForm | lib/query-preprocessor.ts:50-58 | `normalizeText` returns small ASCII letters, digits, `_` and single spaces, with no space at either end |
| QueryNormalizer.NormalizeText | lib/query-preprocessor.ts:50-58 | defines `normalizeText`: lower-case, NFD, drop combining marks, punctuation to spaces, collapse spaces, trim. Its properties are `NormalizeTextForm`, `NormalFormFixed`, `NormalizeIdempotent` and the two `Ignores` lemmas |
| QueryNormalizer.NormalFormFixed | lib/query-preprocessor.ts:50-58 | a string already in that normal form comes back unchanged |
| QueryNormalizer.NormalizeIdempotent | lib/query-preprocessor.ts:50-58 | normalising twice is normalising once |
| QueryNormalizer.NormalizeIgnoresCase | lib/query-preprocessor.ts:52-58 | lower-casing before normalising changes nothing |
| QueryNormalizer.NormalizeIgnoresAccent | lib/query-preprocessor.ts:52-54 | replacing an accented letter anywhere in a query by its base letter does not change the normalised query |
| QueryNormalizer.FoldedIgnoresAccent | lib/query-preprocessor.ts:52-54 | the same for the first three steps: lower-case, decompose, strip marks |
| QueryNormalizer.LongWordsShape | lib/query-preprocessor.ts:65 | every word kept has more than two characters and no space |
| QueryNormalizer.CollectBigrams | lib/query-preprocessor.ts:68-71 | the bigram loop yields exactly one bigram per adjacent pair of words |
| QueryNormalizer.ExtractKeywords | lib/query-preprocessor.ts:63-74 | `extractKeywords` returns the words and then the bigrams: n + max(n - 1, 0) keywords for n words |
| QueryNormalizer.KeywordsShape | lib/query-preprocessor.ts:63-74 | the first n keywords are the words, each longer than two characters and without a space; keyword n + i is word i, a space, and word i + 1 |
| QueryNormalizer.KeywordsOfNormalized | lib/query-preprocessor.ts:63-74 | a normalised query has the same keywords as the original |
| Taxonomy.FindByName | lib/query-preprocessor.ts:517 | the lookup by name, used for `categories[name]` and `subcategories[name]`, finds an entry exactly when one of that name exists, and returns one of that name |
| Taxonomy.FindOwn | lib/query-preprocessor.ts:517 | with unique names, every entry is found by its own name |
| Taxonomy.LookupKeywords | lib/query-preprocessor.ts:316-321 | keywords found for a category and subcategory name belong to a subcategory of that name inside a category of that name |
| Taxonomy.LookupSubcategory | lib/query-preprocessor.ts:516-518 | in a taxonomy with unique names every subcategory is found under its own names |
| Taxonomy.CategoryLeaves | lib/query-preprocessor.ts:500-501 | one leaf per subcategory, in order, naming its category and subcategory |
| Taxonomy.LeafOrigin | lib/query-preprocessor.ts:500-501 | every leaf of the taxonomy is a subcategory of one of its categories |
| Taxonomy.LookupLeaf | lib/query-preprocessor.ts:516-518 | looking up a leaf's names gives back the leaf's own keywords |
| Taxonomy.MockWellFormed | __tests__/query-classification.test.ts:4-51 | the mock taxonomy has unique category and subcategory names, as many categories as its metadata says, and seven leaves |
| Scoring.PairScore | lib/query-preprocessor.ts:90-108 | a pair scores 2.0 exactly when it matches exactly; a containment scores at most 0.7; no match scores nothing |
| Scoring.ScorePair | lib/query-preprocessor.ts:88-108 | the loop body reports a hit exactly when the normalised taxonomy keyword matches, and adds the pair's score, which is zero without a hit |
| Scoring.ScoreRow | lib/query-preprocessor.ts:87-110 | the inner loop adds up the pair scores of one query keyword and collects its matches in order |
| Scoring.ScoreKeywordMatches | lib/query-preprocessor.ts:79-117 | the nested loops compute the total score and the deduplicated matches over all pairs |
| Scoring.MatchResult | lib/query-preprocessor.ts:79-117 | the score is never negative; the match list has no repetitions and only taxonomy keywords; a positive score always comes with a match |
| Scoring.TotalScorePositive | lib/query-preprocessor.ts:79-117 | a positive total score implies at least one matching pair |
| Scoring.CountExact | lib/query-preprocessor.ts:138-142 | the number of exact matches never exceeds the number matched |
| Scoring.Ratio | lib/query-preprocessor.ts:132-143 | each coverage ratio, divided by at least 1, is non-negative, zero for nothing matched and at most 1 when the count does not exceed the divisor |
| Scoring.Boosted | lib/query-preprocessor.ts:156-179 | the boosts never make the confidence negative; with an exact match the result is capped at 1, without one it grows by at most the political and citizen factors |
| Scoring.CalculateConfidence | lib/query-preprocessor.ts:123-183 | confidence is never negative, is 0 for a zero best score, and never lies strictly between 0 and 0.06 |
| Scoring.OwnKeywordsExact | lib/query-preprocessor.ts:138-142 | keywords taken from the subcategory itself all count as exact matches |
| Scoring.ConfidenceOfOwnKeywords | lib/query-preprocessor.ts:123-183 | for matches taken from the subcategory's own keywords, the confidence is at most 1 |
| Retrieval.NormalizeAll | lib/query-preprocessor.ts:196-197 | every matched keyword is normalised in place |
| Retrieval.PushTag | lib/query-preprocessor.ts:196-201 | the `forEach` callback appends the normalised keyword when it is longer than two characters and not yet a tag |
| Retrieval.GenerateTags | lib/query-preprocessor.ts:188-204 | the method computes the tag list of the specification |
| Retrieval.AddTagsShape | lib/query-preprocessor.ts:196-201 | the loop keeps the initial tags and only appends new normalised keywords longer than two characters, none twice |
| Retrieval.AddTagsComplete | lib/query-preprocessor.ts:196-201 | every normalised keyword longer than two characters ends up among the tags |
| Retrieval.TagsShape | lib/query-preprocessor.ts:188-204 | between 2 and 10 tags: the normalised category, the normalised subcategory, then new distinct normalised matches; under ten tags every eligible match is present |
| Retrieval.GenerateFilters | lib/query-preprocessor.ts:238-304 | at most one filter, and none exactly for a general query of confidence at most 0.3. A specific query above 0.7 gets exactly the path filter. A specific query in (0.4, 0.7] with tags gets exactly the filter on its first five tags. Every other query that gets a filter gets exactly the category filter |
| Retrieval.FiltersNarrowWithConfidence | lib/query-preprocessor.ts:249-301 | raising the confidence never widens the filter (none, category, tags, path) |
| Retrieval.MaxExpansion | lib/query-preprocessor.ts:346 | the expansion limit lies between 2 and 5 |
| Retrieval.RelevantKeywordsShape | lib/query-preprocessor.ts:327-343 | the relevant keywords are subcategory keywords passing the filter, shortest first |
| Retrieval.TakeThenTake | lib/query-preprocessor.ts:347-368 | cutting, appending and cutting again keeps the first part whole and fills up from the second |
| Retrieval.ExpansionShape | lib/query-preprocessor.ts:327-368 | the expansion is the chosen relevant keywords, shortest first, followed by sibling keywords, within the limit |
| Retrieval.Expansion | lib/query-preprocessor.ts:327-368 | defines the expansion list: the first `limit` relevant keywords, then the sibling keywords, cut at `limit`. Its shape is `ExpansionShape` |
| Retrieval.SiblingKeywords | lib/query-preprocessor.ts:350-366 | at most one sibling keyword, longer than four characters and absent from the lower-cased query |
| Retrieval.ExpansionKeywords | lib/query-preprocessor.ts:309-368 | keywords are added exactly when the confidence is at least 0.2 and the path resolves, and never more than the limit |
| Retrieval.ExpansionKeywordsShape | lib/query-preprocessor.ts:323-368 | the added keywords are the relevant subcategory keywords, shortest first, then at most one sibling; none is in the query or shorter than four characters |
| Retrieval.ExpandQuery | lib/query-preprocessor.ts:309-386 | the expanded query starts with the query. It is the query itself below 0.2 and when the path does not resolve. It differs from the query exactly when `ExpansionKeywords` gives a non-empty list, and then it is the query, a space and those keywords joined by spaces (their shape is `ExpansionKeywordsShape`) |
| Retrieval.LongQueryIsSpecific | lib/query-preprocessor.ts:444-460 | a query of more than four words that no general pattern accepts is specific |
| Retrieval.DetectQueryType | lib/query-preprocessor.ts:391-461 | defines `detectQueryType` on the normalised query, in the source's order: specific patterns, general patterns, a single general word, a short query naming a category, otherwise specific. Its properties are `LongQueryIsSpecific`, `DetectNormalized` and `AccentedGeneralWordsUnreachable` |
| Retrieval.DetectNormalized | lib/query-preprocessor.ts:391-461 | detection gives the same type for a query and its normalised form |
| Retrieval.AccentedGeneralWordsUnreachable | lib/query-preprocessor.ts:447-449 | the accented entries of the single-word list can never match, since the words are normalised |
| Classifier.Candidates | lib/query-preprocessor.ts:500-502 | one candidate per subcategory, in order, each the score and matches of its keywords |
| Classifier.MatchConfidence | lib/query-preprocessor.ts:516-527 | defines the confidence of the best match: `calculateConfidence` against the looked-up subcategory's keywords, 0 when a name is empty or the lookup fails. Its bound is `ConfidenceInUnitInterval` |
| Classifier.Outcome | lib/query-preprocessor.ts:529-550 | defines the result built from the best match: the match at or above the threshold, the fallback and `General` below it, with tags and filters. Its properties are `ClassifiedCategory` and `TypeOnlyShapesFilters` |
| Classifier.Classified | lib/query-preprocessor.ts:491-550 | defines the classification of a cache miss. Its properties are `ClassifiedCategory`, `ConfidenceInUnitInterval`, `MatchedKeywordsDistinct` and `ClassifiedOfNormalized` |
| Classifier.ClassifyStep | lib/query-preprocessor.ts:466-559 | defines one call of `classifyQuery`: its result and the cache after it. Its properties are `BlankQuery`, `CacheHit`, `CacheMiss`, `StepKeepsCacheValid` and the `Repeat` lemmas |
| Classifier.BestFromAppend | lib/query-preprocessor.ts:499-513 | scanning two candidate lists in a row is scanning their concatenation |
| Classifier.BestFromWins | lib/query-preprocessor.ts:504-511 | the scan keeps the first candidate with the highest score, or the empty match when no score is positive |
| Classifier.CandidateOrigin | lib/query-preprocessor.ts:500-502 | every candidate is the match of some subcategory of some category |
| Classifier.BestOfWins | lib/query-preprocessor.ts:492-513 | over the whole taxonomy: the empty match when every score is 0, else the first strictly best candidate |
| Classifier.BestOfIsSubcategory | lib/query-preprocessor.ts:492-513 | the best match is empty or a positive-scoring subcategory of the taxonomy |
| Classifier.ScanCategory | lib/query-preprocessor.ts:501-512 | the inner loop over one category's subcategories continues the scan |
| Classifier.FindBestMatch | lib/query-preprocessor.ts:491-513 | the nested loops compute the best match over the whole taxonomy |
| Classifier.ClassifiedOfNormalized | lib/query-preprocessor.ts:491-550 | classifying the normalised query gives the same result as the query |
| Classifier.SameNormalFormSameResult | lib/query-preprocessor.ts:484-550 | two queries with the same cache key classify identically, so one cache entry serves both |
| Classifier.TypeOnlyShapesFilters | lib/query-preprocessor.ts:538-550 | the query type affects only the filters and the recorded type |
| Classifier.ConfidenceInUnitInterval | lib/query-preprocessor.ts:515-527 | in a well-formed taxonomy the confidence of a classification lies in [0, 1] |
| Classifier.ClassifiedCategory | lib/query-preprocessor.ts:529-543 | the path is `category > subcategory`; below the threshold the fallback category with `General`; at or above a positive threshold the category and subcategory of the best match (`BestOf`), a real subcategory whose own keywords gave the matches |
| Classifier.MatchedKeywordsDistinct | lib/query-preprocessor.ts:543 | the matched keywords are distinct and all come from one subcategory |
| Classifier.BlankQuery | lib/query-preprocessor.ts:467-478 | a blank query gets the fallback category, `General`, confidence 0, no filters, the general type, and the cache is untouched |
| Classifier.CacheHit | lib/query-preprocessor.ts:484-489 | a fresh cache entry is returned with the new query type but its old filters, and the cache is untouched |
| Classifier.ValidEntry | lib/query-preprocessor.ts:484-489 | under the cache invariant a cached answer is what classifying the query afresh would give for its type |
| Classifier.CacheMiss | lib/query-preprocessor.ts:491-558 | without a fresh entry the query is classified and stored under its normalised form with the current time |
| Classifier.StepKeepsCacheValid | lib/query-preprocessor.ts:553-556 | every call keeps the invariant that each entry is the classification of its key |
| Classifier.RepeatAtOnce | lib/query-preprocessor.ts:484-489 | asking again at the same moment gives the same answer and cache |
| Classifier.RepeatAfterMiss | lib/query-preprocessor.ts:484-489 | after a miss, asking again within the five-minute window gives the same answer and cache |
| Classifier.CountEntries | lib/query-preprocessor.ts:596-602 | the loop counts each entry once: the valid count is the number of fresh keys, and the two counts add up to the size |
| Classifier.ClassificationService.constructor | lib/query-preprocessor.ts:44 | a new service holds its taxonomy and patterns and an empty cache |
| Classifier.ClassificationService.ClassifyQuery | lib/query-preprocessor.ts:466-559 | result and new cache are those of one classification step from the old cache |
| Classifier.ClassificationService.Classify | lib/query-preprocessor.ts:491-550 | the miss path computes the specified classification |
| Classifier.ClassificationService.ClearCache | lib/query-preprocessor.ts:584-586 | the cache is empty afterwards |
| Classifier.ClassificationService.GetCacheStats | lib/query-preprocessor.ts:591-610 | the total is the cache size, the valid count the fresh keys, valid plus expired the total, and the TTL 5 minutes |
| HybridEvaluator.Normalized | scripts/hybrid-evaluator.ts:225-226 | the point total is clamped to [0, 100] and scaled to [0, 1] |
| HybridEvaluator.EvaluateHeuristics | scripts/hybrid-evaluator.ts:201-235 | defines `evaluateHeuristics`: the four checks, their points and the normalised score. Its properties are `HeuristicScoreMonotone`, `MoreDocumentsNeverLower` and `HeuristicScoreBounds` |
| HybridEvaluator.EvaluatePatterns | scripts/hybrid-evaluator.ts:237-270 | defines `evaluatePatterns`: the four checks, their points and the normalised score. Its properties are `PatternScoreMonotone`, `PatternScoreBounds` and the mention lemmas |
| HybridEvaluator.HeuristicScoreMonotone | scripts/hybrid-evaluator.ts:207-226 | passing more heuristic checks with at least as many documents never lowers the score |
| HybridEvaluator.MoreDocumentsNeverLower | scripts/hybrid-evaluator.ts:201-235 | for the same answer, more documents never lower the heuristic score |
| HybridEvaluator.HeuristicScoreBounds | scripts/hybrid-evaluator.ts:207-226 | all checks passed give 1.0; all failed without documents give 0.0; no documents caps the score at 0.7 |
| HybridEvaluator.MentionsIgnoresCase | scripts/hybrid-evaluator.ts:247 | the candidate-name test is case-insensitive |
| HybridEvaluator.BoundedIsWholeWord | scripts/hybrid-evaluator.ts:247 | every candidate name begins and ends with an ASCII letter (the `é` of "artés" is inside it), so its two `\b` tests hold exactly when no word character comes directly before or after the name |
| HybridEvaluator.NameAloneIsMention | scripts/hybrid-evaluator.ts:247 | an answer consisting of a candidate's name mentions a candidate |
| HybridEvaluator.NameFirstIsMention | scripts/hybrid-evaluator.ts:247 | a candidate's name followed by text that does not begin with a word character is a mention |
| HybridEvaluator.ArtesIsMention | scripts/hybrid-evaluator.ts:247 | "Artés" alone and "Artés propone" are mentions |
| HybridEvaluator.ArtesGluedIsNoMention | scripts/hybrid-evaluator.ts:247 | "Artésx" is no mention: the closing `\b` after the `s` fails |
| HybridEvaluator.NameInsideWordIsNoMention | scripts/hybrid-evaluator.ts:247 | a name inside a longer word is not a mention (word boundaries) |
| HybridEvaluator.UnknownCategoryIncorrect | scripts/hybrid-evaluator.ts:272-294 | a category not among the ten known ones is never counted as correct |
| HybridEvaluator.ValidateClassification | scripts/hybrid-evaluator.ts:272-294 | defines `validateClassification`: some expected keyword of the lower-cased category occurs in the lower-cased question. Its properties are `UnknownCategoryIncorrect`, `ValidateIgnoresCase` and `AfpIsPensiones` |
| HybridEvaluator.ValidateIgnoresCase | scripts/hybrid-evaluator.ts:272-294 | validation depends only on the lower-cased question and category |
| HybridEvaluator.AfpIsPensiones | scripts/hybrid-evaluator.ts:272-294 | the question "AFP" validates the category `Pensiones` |
| HybridEvaluator.SpecificProposalsIff | scripts/hybrid-evaluator.ts:296-309 | an answer has specific proposals exactly when two different indicators occur in it |
| HybridEvaluator.HasSpecificProposals | scripts/hybrid-evaluator.ts:296-309 | defines `hasSpecificProposals`: at least two indicators found in the lower-cased answer. Its properties are `SpecificProposalsIff` and `PlanteaCountsTwice` |
| HybridEvaluator.PlanteaCountsTwice | scripts/hybrid-evaluator.ts:296-309 | "plantea" alone already counts as two indicators, since it contains "plan" |
| HybridEvaluator.PatternScoreMonotone | scripts/hybrid-evaluator.ts:244-265 | passing more pattern checks never lowers the pattern score |
| HybridEvaluator.PatternScoreBounds | scripts/hybrid-evaluator.ts:244-265 | all pattern checks give 1.0, none give 0.0, and a wrong classification without substance caps the score at 0.05 |
| HybridEvaluator.PassIff | scripts/hybrid-evaluator.ts:311-327 | PASS exactly when the final score is at least 0.6 and documents were found or the judge rates the sources at least 20 |
| HybridEvaluator.DetermineVerdict | scripts/hybrid-evaluator.ts:311-327 | defines `determineVerdict`. Its properties are `PassIff`, `VerdictMonotone` and `VerdictNotMonotone` |
| HybridEvaluator.VerdictMonotone | scripts/hybrid-evaluator.ts:311-327 | with documents or good sources, a higher score never gives a worse verdict |
| HybridEvaluator.VerdictNotMonotone | scripts/hybrid-evaluator.ts:311-327 | without documents and with poor sources, 0.5 is FAIL but 0.9 is CRITICAL |
| HybridEvaluator.HeuristicIssuesShape | scripts/hybrid-evaluator.ts:329-336 | each heuristic issue is listed exactly when its check fails, once |
| HybridEvaluator.PatternIssuesShape | scripts/hybrid-evaluator.ts:338-345 | each pattern issue is listed exactly when its check fails, once |
| HybridEvaluator.RecommendationsShape | scripts/hybrid-evaluator.ts:347-367 | each of the four recommendations appears exactly when its condition holds, once |
| HybridEvaluator.EvaluateShape | scripts/hybrid-evaluator.ts:56-113 | with a judge score in [0, 1] the final score is in [0, 1]; the issues are those of the judge and the failed checks, each once; the recommendations pass through |
| HybridEvaluator.EvaluateIssueOrder | scripts/hybrid-evaluator.ts:86-90 | the issues are the judge's, heuristic and pattern issues deduplicated in order of first occurrence; the judge's distinct issues come first, then the heuristic ones |
| HybridEvaluator.Evaluate | scripts/hybrid-evaluator.ts:56-113 | defines `evaluate` once the judge's evaluation is known: the 70/20/10 weighting, the verdict and the deduplicated issues and recommendations. Its properties are `EvaluateShape`, `EvaluateIssueOrder` and `EvaluateVerdict` |
| HybridEvaluator.EvaluateVerdict | scripts/hybrid-evaluator.ts:74-83 | a final score below 0.4 is CRITICAL, and an answer without documents and with sources rated below 20 never passes |
| QuestionParsing.CategoryTable | scripts/question-parser.ts:74-90 | the category map has fifteen entries |
| QuestionParsing.Lookup | scripts/question-parser.ts:92 | a key maps to a value exactly when the table lists it, and the value is one listed for it |
| QuestionParsing.CategoryKeysDistinct | scripts/question-parser.ts:74-90 | the fifteen header names are distinct |
| QuestionParsing.NormalizeCategory | scripts/question-parser.ts:72-93 | a header name not in the map is returned unchanged |
| QuestionParsing.NormalizeListed | scripts/question-parser.ts:72-93 | every listed header name maps to its taxonomy category |
| QuestionParsing.MappedFixed | scripts/question-parser.ts:74-92 | every taxonomy category of the map maps to itself |
| QuestionParsing.NormalizeCategoryIdempotent | scripts/question-parser.ts:72-93 | mapping a category twice is mapping it once |
| QuestionParsing.ExpectedTopicsShape | scripts/question-parser.ts:95-114 | the topics start with the category and then hold, once each, exactly the topic keywords the lower-cased question contains |
| QuestionParsing.ExtractExpectedTopics | scripts/question-parser.ts:95-114 | defines `extractExpectedTopics`: the category, then the topic keywords the lower-cased question contains, once each. Its shape is `ExpectedTopicsShape` |
| QuestionParsing.KeywordsInFilter | scripts/question-parser.ts:106-111 | the topic loop keeps exactly the keywords found in the question, in list order |
| QuestionParsing.IndicatorsFromFilter | scripts/question-parser.ts:122-125 | the indicator filter keeps exactly the indicators found, in list order |
| QuestionParsing.DifficultyIff | scripts/question-parser.ts:116-130 | basic exactly when no indicator occurs, complex exactly when two different ones do |
| QuestionParsing.AssessDifficulty | scripts/question-parser.ts:116-130 | defines `assessDifficulty` from the question's indicator count. Its thresholds are `DifficultyIff` |
| QuestionParsing.LeadingDigits | scripts/question-parser.ts:41 | the count of leading digits is the length of the maximal digit prefix |
| QuestionParsing.UntilTerminator | scripts/question-parser.ts:42 | `(.+)` captures the longest prefix free of line terminators |
| QuestionParsing.QuestionText | scripts/question-parser.ts:41-47 | defines the text of a numbered line: the trimmed `(.+)` capture after `^\d+\.\s*`, or none for an unnumbered line or one with nothing after the number; texts under ten characters are skipped by `YieldsQuestion`. Its pieces are `LeadingDigits` and `UntilTerminator`, and `NumberedIsNoHeader` relates it to headers |
| QuestionParsing.StepExtends | scripts/question-parser.ts:27-60 | one line appends at most one question, exactly when its text has ten or more characters |
| QuestionParsing.RunLinesWellParsed | scripts/question-parser.ts:25-58 | one question per qualifying line; ids run 1, 2, ...; each question keeps its section, category and text of at least ten characters |
| QuestionParsing.RunLines | scripts/question-parser.ts:23-61 | defines what the parse loop computes from the lines of the file. Its properties are `RunLinesWellParsed`, `RunLinesPrefix`, `StepExtends`, `HeaderSetsCategory` and `HeaderThenQuestion` |
| QuestionParsing.RunLinesPrefix | scripts/question-parser.ts:27-60 | more lines only append questions |
| QuestionParsing.NumberedIsNoHeader | scripts/question-parser.ts:31-41 | a numbered line is never a header |
| QuestionParsing.HeaderSetsCategory | scripts/question-parser.ts:31-37 | a header sets both the current category and the section to its name |
| QuestionParsing.HeaderThenQuestion | scripts/question-parser.ts:31-56 | a question right after a header gets that section, the mapped category and its own text |
| QuestionParsing.QuestionParser.constructor | scripts/question-parser.ts:14 | a new parser holds no questions |
| QuestionParsing.QuestionParser.ParseQuestions | scripts/question-parser.ts:16-64 | the questions of the lines are appended to those stored, and the whole stored list is returned |
| QuestionParsing.QuestionParser.GetQuestionsByCategory | scripts/question-parser.ts:141-143 | exactly the stored questions of that category |
| QuestionParsing.QuestionParser.GetTotalCount | scripts/question-parser.ts:145-147 | the number of stored questions |
| QuestionParsing.ByCategoryAppend | scripts/question-parser.ts:58 | after another parse, each category's list is the old list followed by the new questions of that category |
| Grouping.PushShape | scripts/test-logger.ts:233-236 | with distinct keys a push appends to the key's entry and leaves the others alone, or adds a last entry for a new key |
| Grouping.GroupedShape | scripts/test-logger.ts:230-239 | the map's entries are the distinct keys in order of first occurrence, each with exactly its values in order |
| Grouping.GroupedNonEmpty | scripts/test-logger.ts:230-239 | every entry holds at least one value |
| Grouping.GroupedSize | scripts/test-logger.ts:230-239 | the entries together hold every pair exactly once |
| Grouping.PermutedEntries | scripts/test-logger.ts:239-273 | sorting the per-key entries keeps one entry per key and nothing else |
| TestLogging.Logged | scripts/test-logger.ts:141-145 | the logged path is `Unknown` when missing, and what the runner reported is kept |
| TestLogging.Percent | scripts/test-logger.ts:177 | a share of n lies in [0, 100]: 0 exactly for none and 100 exactly for all |
| TestLogging.VerdictPartition | scripts/test-logger.ts:173-175 | the pass, fail and critical counts add up to the number of results |
| TestLogging.MeanScoreBounds | scripts/test-logger.ts:170-171 | with scores in [0, 1] the average score is in [0, 1] |
| TestLogging.SessionStatsShape | scripts/test-logger.ts:166-193 | the counts, the rates in [0, 100], a pass rate of 100 exactly when all pass, one cent per question, an average in [0, 1] |
| TestLogging.RunningStats | scripts/test-logger.ts:166-193 | defines `updateRunningStats`' figures over a non-empty log. Its properties are `SessionStatsShape`, `VerdictPartition` and `MeanScoreBounds` |
| TestLogging.WithStats | scripts/test-logger.ts:166-193 | writing the figures changes only the figures |
| TestLogging.FrequenciesShape | scripts/test-logger.ts:247-251 | every issue has one entry holding its number of occurrences |
| TestLogging.CommonIssuesCounts | scripts/test-logger.ts:247-256 | at most three common issues, each labelled with its true count, in non-increasing count order |
| TestLogging.CommonIssuesMostFrequent | scripts/test-logger.ts:253-256 | an issue left out only when three issues at least as frequent were kept |
| TestLogging.PerformanceCounts | scripts/test-logger.ts:240-272 | a category entry counts its results, the verdict counts add up, the pass rate is in [0, 100], the average in [0, 1] |
| TestLogging.CategoryPerformanceOf | scripts/test-logger.ts:229-274 | defines `generateCategoryPerformance`: one entry per category group, sorted by decreasing average. Its properties are `PerformanceCounts`, `PerformanceExtremes`, `CategoryPerformanceCovers`, `CategoryPerformanceEntries` and `CategoryTotals` |
| TestLogging.PerformanceExtremes | scripts/test-logger.ts:259-271 | top and worst questions have the highest and the lowest score of the category; on a tie the top question is the first with the highest score and the worst the last with the lowest |
| TestLogging.CategoryGroups | scripts/test-logger.ts:230-237 | one group per category, in order of first occurrence, holding exactly its results |
| TestLogging.CategoryPerformanceCovers | scripts/test-logger.ts:229-274 | best average first; exactly one entry per category of the results |
| TestLogging.CategoryPerformanceEntries | scripts/test-logger.ts:239-273 | each entry is the performance of exactly the results of its category |
| TestLogging.CategoryTotals | scripts/test-logger.ts:229-274 | the category entries' question counts add up to the number of results |
| TestLogging.FailureGroups | scripts/test-logger.ts:277-288 | one group per issue of an answer that did not pass, holding exactly the affected questions |
| TestLogging.AffectedIff | scripts/test-logger.ts:279-288 | a question is listed under an issue exactly when that answer did not pass and reported the issue |
| TestLogging.AffectedBound | scripts/test-logger.ts:279-290 | no issue affects more questions than failed |
| TestLogging.FailureAnalysisEntries | scripts/test-logger.ts:290-304 | each entry counts its affected questions. Its percentage is that count over the number of answers that did not pass, times 100, and lies in (0, 100]. Its action and priority are those of its type |
| TestLogging.FailureAnalysisOf | scripts/test-logger.ts:276-305 | defines `generateFailureAnalysis`: the failure map's entries, most frequent first. Its properties are `FailureAnalysisEntries`, `FailureAnalysisCovers`, `AffectedIff` and `AffectedBound` |
| TestLogging.FailureAnalysisCovers | scripts/test-logger.ts:276-305 | most frequent first; exactly one entry per issue of a failed answer |
| TestLogging.KnownTypeAction | scripts/test-logger.ts:307-319 | each of the seven known failure types has its own action |
| TestLogging.GetRecommendedAction | scripts/test-logger.ts:307-319 | defines `getRecommendedAction`. Its properties are `KnownTypeAction`, `UnknownTypeAction` and `EvaluatorIssuesKnown` |
| TestLogging.UnknownTypeAction | scripts/test-logger.ts:307-319 | any other type gets the general action |
| TestLogging.EvaluatorIssuesKnown | scripts/test-logger.ts:307-319 | of the evaluator's eight check issues, all but two have a specific action |
| TestLogging.PriorityMonotone | scripts/test-logger.ts:321-325 | a higher share never lowers the priority |
| TestLogging.GetPriority | scripts/test-logger.ts:321-325 | defines `getPriority`. Its properties are `PriorityMonotone`, `NoDocumentsHigh`, `IncorrectClassificationNotLow` and `LowConfidenceNotLow` |
| TestLogging.NoDocumentsHigh | scripts/test-logger.ts:322 | a missing-documents failure is always high priority |
| TestLogging.IncorrectClassificationNotLow | scripts/test-logger.ts:323 | a classification failure is never low priority |
| TestLogging.LowConfidenceNotLow | scripts/test-logger.ts:323 | a low-confidence failure is never low priority |
| TestLogging.RecommendationsWithLevels | scripts/test-logger.ts:327-360 | each fixed recommendation appears exactly when its threshold is crossed |
| TestLogging.PoorCategoriesNamed | scripts/test-logger.ts:344-347 | the poor list names exactly the categories passing under 60%, and the note appears exactly when there is one |
| TestLogging.FailurePartCount | scripts/test-logger.ts:350-353 | one note per high-priority failure |
| TestLogging.RecommendationsWithCount | scripts/test-logger.ts:327-360 | the number of notes is the number of conditions met plus the number of high-priority failures, and every high-priority failure has its note |
| TestLogging.AsWrittenNeverPositive | scripts/test-logger.ts:355-357 | with the source's threshold of 80 the positive note never appears for scores in [0, 1] |
| TestLogging.PerfectSessionExample | scripts/test-logger.ts:355-357 | a perfect session gets no note as written and the positive note with 0.8 |
| TestLogging.PositiveIff | scripts/test-logger.ts:355-357 | with the corrected threshold the positive note appears exactly when the average score exceeds 0.8 |
| TestLogging.TestLogger.constructor | scripts/test-logger.ts:82-112 | a new logger holds the empty document, which satisfies the invariant |
| TestLogging.TestLogger.InitializeSession | scripts/test-logger.ts:114-122 | only the planned number of questions changes |
| TestLogging.TestLogger.UpdateRunningStats | scripts/test-logger.ts:166-193 | nothing changes on an empty log; otherwise the figures become those of the whole log |
| TestLogging.TestLogger.LogQuestionResult | scripts/test-logger.ts:124-164 | the record is appended, completed grows by one, the figures stay those of the log, and the rest of the document is unchanged |
| TestLogging.TestLogger.GroupByCategory | scripts/test-logger.ts:230-237 | the loop builds the grouping of the results by category |
| TestLogging.TestLogger.GenerateCategoryPerformance | scripts/test-logger.ts:229-274 | the method computes the specified category performance |
| TestLogging.TestLogger.CollectFailures | scripts/test-logger.ts:277-288 | the loops build the grouping of failed questions by issue |
| TestLogging.TestLogger.PushIssues | scripts/test-logger.ts:281-286 | the inner loop pushes the answer's question under each of its issues |
| TestLogging.TestLogger.GenerateFailureAnalysis | scripts/test-logger.ts:276-305 | the method computes the specified failure analysis |
| TestLogging.TestLogger.GenerateRecommendations | scripts/test-logger.ts:327-360 | the method computes the recommendations, with the corrected threshold |
| TestLogging.TestLogger.PushFailureRecommendations | scripts/test-logger.ts:350-353 | the loop appends one note per high-priority failure, in order |
| TestLogging.TestLogger.FinalizeSession | scripts/test-logger.ts:195-227 | the duration is set; category performance, failure analysis and recommendations (with the corrected threshold) are those of the log; the log and figures are unchanged |

## Left out

- File and console I/O are not modelled:
  - reading the question file;
  - creating the output directory;
  - writing the JSON results and the markdown summary (`generateSummaryReport`);
  - every `console` call.
  - `parseQuestions` takes the lines of the file. `finalizeSession`'s returned file path is not modelled.
- Clocks and identifiers are inputs:
  - `Date.now()`, `new Date()` and the start time are integer milliseconds passed in by the caller.
  - The session id, ISO time stamps and the per-record time stamp are not modelled.
- `evaluateWithAI`, `createErrorResult` and the error path of `evaluate` are not modelled. The judge calls a remote language model, so its evaluation is an input.
- Regular expressions are parameters, not modelled character by character: the general and specific patterns of `detectQueryType`, and the emoji header expression of `parseQuestions`.
  - The fixed tests the model writes out itself are the candidate-name test (`\b` as a change between an ASCII word character and any other character or an end of the text), `^\d+\.` and the `(.+)` capture.
- Unicode is only partly modelled, because JavaScript's Unicode tables are out of scope:
  - NFD and `toLowerCase` are the Latin-1 accented letters plus ASCII.
  - Lengths count characters, not UTF-16 code units.
- Floating point is modelled as exact reals. `Math.round`, `toFixed` and rounding error are not modelled.
- JavaScript objects used as maps are modelled as ordered sequences. Prototype keys such as `constructor` are not modelled, and neither is the reordering `Object.entries` applies to integer-like keys.
- Untyped inputs are not modelled, for example a classification without `confidence` or without `category`. `classification?.x || default` is modelled only as the `None` case and the present case.
- `getTaxonomyInfo` and `getCategoryCounts` are not modelled: they only format numbers for logging.
- `isGeneralCategoryQuery` is not modelled, because nothing in the preprocessor calls it.
- `generateFilters` has an `originalQuery` argument that its body never reads, so the model does not take one.
- The mock taxonomy's metadata says six subcategories and lists seven. `Taxonomy.MockWellFormed` states the seven it lists.
- `TestLogging.TestLogger.GenerateFailureAnalysis`: it requires the logger invariant. Under it, the stored fail and critical counts equal the counts of the log, which the specification function uses.
- `TestLogging.FailureAnalysisEntries` requires each answer's issue list to be free of repetitions, which `HybridEvaluator.Evaluate` guarantees.
- The results document is a value, so the object aliasing of the source is not modelled. The category and failure groups in the source share `DetailedResult` objects with the log, and sorting a group array leaves the log's order alone, as the model does.

## Findings

| source | as written | input that shows it | evidently intended | confidence | as-written member | corrected member |
|---|---|---|---|---|---|---|
| scripts/test-logger.ts:355 | the positive recommendation requires `avg_score > 80`, but `avg_score` is the mean of `final_score` values in [0, 1] | a session whose every answer scores 1.0 (average 1.0) gets no positive note | `avg_score > 0.8` (80% as a fraction) | not executed | TestLogging.RecommendationsAsWritten (TestLogging.AsWrittenNeverPositive, TestLogging.PerfectSessionExample) | TestLogging.SessionRecommendations (TestLogging.PositiveIff) |
