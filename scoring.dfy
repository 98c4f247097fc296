// Lexicon scoring of query keywords against the keywords of one
// subcategory (`scoreKeywordMatches`) and the confidence of the best match
// (`calculateConfidence`).

module Scoring {
  import opened Text
  import opened QueryNormalizer

  // ---------------------------------------------------------------------
  // One pair of keywords
  // ---------------------------------------------------------------------

  /** A query keyword and a normalised taxonomy keyword match when they are
      equal or one contains the other. */
  predicate PairMatches(q: string, t: string) {
    q == t || Contains(q, t) || Contains(t, q)
  }

  /** What one pair adds to the score: 2.0 for an exact match, the ratio of
      the shorter to the longer length times 0.7 for a containment, and
      nothing otherwise. */
  function PairScore(q: string, t: string): (r: real)
    ensures r == 2.0 <==> q == t
    ensures q != t && PairMatches(q, t) ==> 0.0 <= r <= 0.7
    ensures !PairMatches(q, t) ==> r == 0.0
  {
    if q == t then 2.0
    else if Contains(q, t) || Contains(t, q) then
      Ratio(MinInt(|q|, |t|), MaxInt(|q|, |t|)) * 0.7
    else 0.0
  }

  /** A query keyword against a raw taxonomy keyword, which the loop
      normalises first. */
  predicate KeywordMatches(q: string, tk: string) {
    PairMatches(q, NormalizeText(tk))
  }

  function KeywordScore(q: string, tk: string): real {
    PairScore(q, NormalizeText(tk))
  }

  // ---------------------------------------------------------------------
  // The nested loops, as sums over prefixes
  // ---------------------------------------------------------------------

  /** The score one query keyword collects over a list of taxonomy keywords. */
  function RowScore(q: string, tks: seq<string>): (r: real)
    ensures 0.0 <= r <= 2.0 * |tks| as real
  {
    if tks == [] then 0.0
    else RowScore(q, tks[..|tks| - 1]) + KeywordScore(q, tks[|tks| - 1])
  }

  /** The taxonomy keywords one query keyword matches, in order, as pushed. */
  function RowMatches(q: string, tks: seq<string>): (r: seq<string>)
    ensures |r| <= |tks|
    ensures forall x :: x in r ==> x in tks
  {
    if tks == [] then []
    else
      var init := tks[..|tks| - 1];
      var t := tks[|tks| - 1];
      assert forall x :: x in tks <==> x in init || x == t;
      RowMatches(q, init) + (if KeywordMatches(q, t) then [t] else [])
  }

  /** The score of a list of query keywords. */
  function TotalScore(qks: seq<string>, tks: seq<string>): (r: real)
    ensures 0.0 <= r
  {
    if qks == [] then 0.0
    else TotalScore(qks[..|qks| - 1], tks) + RowScore(qks[|qks| - 1], tks)
  }

  /** Every match pushed by the nested loops, with repetitions. */
  function AllMatches(qks: seq<string>, tks: seq<string>): (r: seq<string>)
    ensures forall x :: x in r ==> x in tks
  {
    if qks == [] then []
    else
      var init := AllMatches(qks[..|qks| - 1], tks);
      var row := RowMatches(qks[|qks| - 1], tks);
      assert forall x :: x in init + row <==> x in init || x in row;
      init + row
  }

  /** `matchedKeywords`: the matches without repetitions, in order of first
      match. */
  function Matched(qks: seq<string>, tks: seq<string>): seq<string> {
    Dedup(AllMatches(qks, tks))
  }

  /** The body of the inner loop: normalise the taxonomy keyword, then try
      an exact match, then a containment. */
  method ScorePair(q: string, tk: string) returns (hit: bool, points: real)
    ensures hit == KeywordMatches(q, tk)
    ensures points == KeywordScore(q, tk)
    ensures !hit ==> points == 0.0
  {
    var t := NormalizeText(tk);
    if q == t {
      return true, 2.0;
    }
    if Contains(q, t) || Contains(t, q) {
      return true, (MinInt(|q|, |t|) as real / MaxInt(|q|, |t|) as real) * 0.7;
    }
    return false, 0.0;
  }

  /** The inner loop of `scoreKeywordMatches`: one query keyword against
      every taxonomy keyword. */
  method ScoreRow(q: string, tks: seq<string>) returns (points: real, hits: seq<string>)
    ensures points == RowScore(q, tks)
    ensures hits == RowMatches(q, tks)
  {
    points, hits := 0.0, [];
    for j := 0 to |tks|
      invariant points == RowScore(q, tks[..j])
      invariant hits == RowMatches(q, tks[..j])
    {
      assert tks[..j + 1][..j] == tks[..j];
      var hit, p := ScorePair(q, tks[j]);
      if hit {
        hits := hits + [tks[j]];
        points := points + p;
      }
    }
    assert tks[..|tks|] == tks;
  }

  /** `scoreKeywordMatches`: the outer loop over the query keywords, then
      `Array.from(new Set(matches))`. */
  method ScoreKeywordMatches(qks: seq<string>, tks: seq<string>) returns (score: real, matched: seq<string>)
    ensures score == TotalScore(qks, tks)
    ensures matched == Matched(qks, tks)
  {
    var matches: seq<string> := [];
    score := 0.0;
    for i := 0 to |qks|
      invariant score == TotalScore(qks[..i], tks)
      invariant matches == AllMatches(qks[..i], tks)
    {
      var points, hits := ScoreRow(qks[i], tks);
      assert qks[..i + 1][..i] == qks[..i];
      matches := matches + hits;
      score := score + points;
    }
    assert qks[..|qks|] == qks;
    matched := Dedup(matches);
  }

  // ---------------------------------------------------------------------
  // Properties of the score
  // ---------------------------------------------------------------------

  /** A positive row score needs a match in that row. */
  lemma {:induction false} RowScorePositive(q: string, tks: seq<string>)
    requires RowScore(q, tks) > 0.0
    ensures RowMatches(q, tks) != []
  {
    var init := tks[..|tks| - 1];
    if !KeywordMatches(q, tks[|tks| - 1]) {
      RowScorePositive(q, init);
    }
  }

  /** A positive total score needs a match somewhere. */
  lemma {:induction false} TotalScorePositive(qks: seq<string>, tks: seq<string>)
    requires TotalScore(qks, tks) > 0.0
    ensures AllMatches(qks, tks) != []
  {
    var init := qks[..|qks| - 1];
    if RowScore(qks[|qks| - 1], tks) > 0.0 {
      RowScorePositive(qks[|qks| - 1], tks);
    } else {
      TotalScorePositive(init, tks);
    }
  }

  /** The result of `scoreKeywordMatches`: a non-negative score, matched
      keywords that are distinct taxonomy keywords, and at least one of them
      whenever the score is positive. */
  lemma MatchResult(qks: seq<string>, tks: seq<string>)
    ensures TotalScore(qks, tks) >= 0.0
    ensures NoDuplicates(Matched(qks, tks))
    ensures forall x :: x in Matched(qks, tks) ==> x in tks
    ensures TotalScore(qks, tks) > 0.0 ==> Matched(qks, tks) != []
  {
    if TotalScore(qks, tks) > 0.0 {
      TotalScorePositive(qks, tks);
      var m := AllMatches(qks, tks);
      assert m[0] in Matched(qks, tks);
    }
  }

  // ---------------------------------------------------------------------
  // Confidence
  // ---------------------------------------------------------------------

  /** A matched keyword whose normal form equals that of one of the
      subcategory's keywords. */
  predicate ExactIn(k: string, subKws: seq<string>) {
    exists t :: t in subKws && NormalizeText(k) == NormalizeText(t)
  }

  /** `exactMatches`. */
  function CountExact(matched: seq<string>, subKws: seq<string>): (r: nat)
    ensures r <= |matched|
  {
    |Filter(matched, k => ExactIn(k, subKws))|
  }

  function PoliticalWords(): seq<string> {
    ["candidato", "propone", "programa", "gobierno", "pol\U{ED}tica"]
  }

  function CitizenPatterns(): seq<string> {
    ["caro", "barato", "alcanza", "falta", "necesito", "problema", "crisis", "mal"]
  }

  predicate HasPoliticalIndicator(qks: seq<string>) {
    exists kw :: kw in qks && Lower(kw) in PoliticalWords()
  }

  predicate HasCitizenLanguage(qks: seq<string>) {
    exists kw, p :: kw in qks && p in CitizenPatterns() && Contains(kw, p)
  }

  /** `a / Math.max(b, 1)`; the length ratio of a containment divides by
      a positive length, where the two agree. */
  function Ratio(a: nat, b: nat): (r: real)
    ensures r >= 0.0
    ensures a == 0 ==> r == 0.0
    ensures a <= b ==> r <= 1.0
  {
    var d := MaxInt(b, 1) as real;
    assert a as real / d * d == a as real;
    a as real / d
  }

  /** The weighted sum of the four factors: keyword coverage 0.4, taxonomy
      coverage 0.3, match quality 0.2 and query complexity 0.1. */
  function WeightedConfidence(matched: seq<string>, qks: seq<string>, subKws: seq<string>): (r: real)
    ensures r >= 0.0
  {
    var keywordCoverage := Ratio(|matched|, |qks|);
    var taxonomyCoverage := Ratio(|matched|, |subKws|);
    var matchQuality := Ratio(CountExact(matched, subKws), |matched|);
    var complexityBonus := Min(|qks| as real / 10.0, 0.1);
    keywordCoverage * 0.4 + taxonomyCoverage * 0.3 + matchQuality * 0.2 + complexityBonus * 0.1
  }

  /** The three capped boosts: times 1.1 for a political word, times
      1 + 0.1 per exact match, times 1.08 for citizen language, each capped
      at 1. */
  function Boosted(c0: real, exact: nat, political: bool, citizen: bool): (r: real)
    requires c0 >= 0.0
    ensures r >= 0.0
    ensures exact > 0 ==> r <= 1.0
    ensures exact == 0 ==> r <= c0 * 1.1 * 1.08
  {
    var c1 := if political then Min(c0 * 1.1, 1.0) else c0;
    var f := 1.0 + exact as real * 0.1;
    assert c1 * f >= 0.0;
    var c2 := if exact > 0 then Min(c1 * f, 1.0) else c1;
    if citizen then Min(c2 * 1.08, 1.0) else c2
  }

  /** `calculateConfidence`: the weighted sum, then the capped boosts for a
      political word, for exact matches and for citizen language, then the
      0.06 floor. */
  function CalculateConfidence(bestScore: real, matched: seq<string>, qks: seq<string>, subKws: seq<string>): (r: real)
    ensures r >= 0.0
    ensures bestScore == 0.0 ==> r == 0.0
    ensures r == 0.0 || r >= 0.06
  {
    if bestScore == 0.0 then 0.0
    else
      var c := Boosted(WeightedConfidence(matched, qks, subKws), CountExact(matched, subKws),
                       HasPoliticalIndicator(qks), HasCitizenLanguage(qks));
      if c < 0.06 then 0.0 else c
  }

  /** A matched keyword that is one of the subcategory's keywords is an
      exact match. */
  lemma OwnKeywordsExact(matched: seq<string>, subKws: seq<string>)
    requires forall k :: k in matched ==> k in subKws
    ensures CountExact(matched, subKws) == |matched|
  {
    var p := k => ExactIn(k, subKws);
    forall i | 0 <= i < |matched| ensures p(matched[i]) {
      assert matched[i] in subKws;
    }
    FilterAll(matched, p);
  }

  /** When every matched keyword is one of the subcategory's own keywords,
      every match is exact, and the exact-match cap keeps the confidence at
      most 1. */
  lemma ConfidenceOfOwnKeywords(bestScore: real, matched: seq<string>, qks: seq<string>, subKws: seq<string>)
    requires forall k :: k in matched ==> k in subKws
    ensures CountExact(matched, subKws) == |matched|
    ensures CalculateConfidence(bestScore, matched, qks, subKws) <= 1.0
  {
    OwnKeywordsExact(matched, subKws);
    if matched == [] {
      var c0 := WeightedConfidence(matched, qks, subKws);
      assert c0 <= 0.01;
      assert c0 * 1.1 * 1.08 < 0.06;
    }
  }
}
