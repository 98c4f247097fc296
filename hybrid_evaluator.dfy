// The deterministic part of the hybrid evaluator that grades one answer of
// the chatbot: four heuristic checks, four pattern checks, the verdict, the
// issue and recommendation lists, and the 70/20/10 combination with the
// score of the language-model judge, which arrives here as a value.

module HybridEvaluator {
  import opened Text
  import Classifier

  datatype Verdict = Pass | Fail | Critical

  /** What the language-model judge reported (its scores on 0..100, its
      overall score already divided by 100). */
  datatype AiEvaluation = AiEvaluation(
    score: real,
    relevance: real,
    completeness: real,
    accuracy: real,
    sourceQuality: real,
    reasoning: string,
    identifiedIssues: seq<string>)

  // ---------------------------------------------------------------------
  // Heuristic checks
  // ---------------------------------------------------------------------

  datatype HeuristicChecks = HeuristicChecks(
    documentsFound: bool,
    responseLengthAdequate: bool,
    classificationConfidenceHigh: bool,
    notGenericResponse: bool)

  /** The points each check contributes. */
  datatype HeuristicBreakdown = HeuristicBreakdown(
    documentsFound: int,
    responseLengthAdequate: int,
    classificationConfidenceHigh: int,
    notGenericResponse: int)

  datatype HeuristicEvaluation = HeuristicEvaluation(
    score: real,
    checks: HeuristicChecks,
    breakdown: HeuristicBreakdown)

  /** The phrase of the chatbot's "nothing found" answer. */
  function GenericPhrase(): string {
    "no se encontraron documentos espec\U{ED}ficos"
  }

  /** `classification?.confidence > 0.8`: false without a classification. */
  predicate ConfidenceHigh(classification: Option<Classifier.ClassificationResult>) {
    classification.Some? && classification.value.confidence > 0.8
  }

  function CheckHeuristics(response: string, classification: Option<Classifier.ClassificationResult>,
                           documents: nat): HeuristicChecks {
    HeuristicChecks(
      documents > 0,
      100 <= |response| <= 2000,
      ConfidenceHigh(classification),
      !Contains(Lower(response), GenericPhrase()))
  }

  /** The points of each check, with the bonuses of 10 for more than five
      documents and 5 more for more than ten. */
  function HeuristicPoints(c: HeuristicChecks, documents: nat): HeuristicBreakdown {
    HeuristicBreakdown(
      (if c.documentsFound then 40 else -40)
        + (if documents > 5 then 10 else 0) + (if documents > 10 then 5 else 0),
      if c.responseLengthAdequate then 10 else -20,
      if c.classificationConfidenceHigh then 20 else -10,
      if c.notGenericResponse then 30 else -30)
  }

  /** The breakdown summed onto the base of 50. */
  function HeuristicTotal(b: HeuristicBreakdown): int {
    50 + b.documentsFound + b.responseLengthAdequate + b.classificationConfidenceHigh + b.notGenericResponse
  }

  /** `Math.max(0, Math.min(100, total)) / 100`. */
  function Normalized(total: int): (r: real)
    ensures 0.0 <= r <= 1.0
    ensures total <= 0 ==> r == 0.0
    ensures total >= 100 ==> r == 1.0
  {
    Clamp100(total) as real / 100.0
  }

  function HeuristicScore(c: HeuristicChecks, documents: nat): real {
    Normalized(HeuristicTotal(HeuristicPoints(c, documents)))
  }

  /** `evaluateHeuristics`. */
  function EvaluateHeuristics(response: string, classification: Option<Classifier.ClassificationResult>,
                              documents: nat): HeuristicEvaluation {
    var c := CheckHeuristics(response, classification, documents);
    HeuristicEvaluation(HeuristicScore(c, documents), c, HeuristicPoints(c, documents))
  }

  /** Every check of c1 that passes also passes in c2. */
  predicate HeuristicWeaker(c1: HeuristicChecks, c2: HeuristicChecks) {
    (c1.documentsFound ==> c2.documentsFound)
    && (c1.responseLengthAdequate ==> c2.responseLengthAdequate)
    && (c1.classificationConfidenceHigh ==> c2.classificationConfidenceHigh)
    && (c1.notGenericResponse ==> c2.notGenericResponse)
  }

  /** Passing more checks, or having more documents, never lowers the
      heuristic score. */
  lemma HeuristicScoreMonotone(c1: HeuristicChecks, c2: HeuristicChecks, d1: nat, d2: nat)
    requires HeuristicWeaker(c1, c2) && d1 <= d2
    ensures HeuristicScore(c1, d1) <= HeuristicScore(c2, d2)
  {
    var t1 := HeuristicTotal(HeuristicPoints(c1, d1));
    var t2 := HeuristicTotal(HeuristicPoints(c2, d2));
    assert t1 <= t2;
    assert Clamp100(t1) <= Clamp100(t2);
  }

  /** Of the same answer, more retrieved documents never give a lower score. */
  lemma MoreDocumentsNeverLower(response: string, classification: Option<Classifier.ClassificationResult>,
                                d1: nat, d2: nat)
    requires d1 <= d2
    ensures EvaluateHeuristics(response, classification, d1).score
            <= EvaluateHeuristics(response, classification, d2).score
  {
    HeuristicScoreMonotone(CheckHeuristics(response, classification, d1),
                           CheckHeuristics(response, classification, d2), d1, d2);
  }

  /** The two ends of the scale: every check passing gives 1, every check
      failing gives 0, and an answer without documents scores at most 0.7. */
  lemma HeuristicScoreBounds(c: HeuristicChecks, documents: nat)
    ensures (c.documentsFound && c.responseLengthAdequate && c.classificationConfidenceHigh
             && c.notGenericResponse) ==> HeuristicScore(c, documents) == 1.0
    ensures (documents == 0 && !c.documentsFound && !c.responseLengthAdequate
             && !c.classificationConfidenceHigh && !c.notGenericResponse) ==> HeuristicScore(c, documents) == 0.0
    ensures documents == 0 && !c.documentsFound ==> HeuristicScore(c, documents) <= 0.7
  {
    if documents == 0 && !c.documentsFound {
      var t := HeuristicTotal(HeuristicPoints(c, documents));
      assert Clamp100(t) <= 70;
    }
  }

  // ---------------------------------------------------------------------
  // Pattern checks
  // ---------------------------------------------------------------------

  datatype PatternChecks = PatternChecks(
    mentionsCandidates: bool,
    correctClassification: bool,
    hasSubstantiveContent: bool,
    containsSpecificProposals: bool)

  datatype PatternBreakdown = PatternBreakdown(
    mentionsCandidates: int,
    correctClassification: int,
    hasSubstantiveContent: int,
    containsSpecificProposals: int)

  datatype PatternEvaluation = PatternEvaluation(
    score: real,
    checks: PatternChecks,
    breakdown: PatternBreakdown)

  function CandidateNames(): seq<string> {
    ["parisi", "boric", "kast", "provoste", "sichel", "art\U{E9}s"]
  }

  /** `\b` at position p of the text: exactly one of the characters on
      either side of p is a word character (`\w` without the `u` flag, so
      ASCII only); a position outside the text counts as a non-word
      character. */
  predicate Boundary(text: string, p: int)
    requires 0 <= p <= |text|
  {
    (p > 0 && IsWordChar(text[p - 1])) != (p < |text| && IsWordChar(text[p]))
  }

  /** w occurs in text at i with a `\b` on either side. */
  predicate BoundedAt(text: string, i: int, w: string) {
    0 <= i && i + |w| <= |text| && text[i..i + |w|] == w
    && Boundary(text, i) && Boundary(text, i + |w|)
  }

  /** `/\b(parisi|boric|kast|provoste|sichel|artés)\b/i.test(response)`;
      lower-casing keeps positions and word characters, so the
      case-insensitive match is a match in the lower-cased text. */
  predicate MentionsCandidates(response: string) {
    exists k, i :: 0 <= k < |CandidateNames()| && 0 <= i <= |response| && BoundedAt(Lower(response), i, CandidateNames()[k])
  }

  /** Every candidate name begins and ends with an ASCII letter (the `é` of
      "artés" is inside the name), so its two `\b` tests say that no word
      character comes directly before or after it. */
  lemma BoundedIsWholeWord(text: string, k: nat, i: int)
    requires k < |CandidateNames()| && 0 <= i
    ensures var n := CandidateNames()[k];
      BoundedAt(text, i, n) <==>
        && i + |n| <= |text| && text[i..i + |n|] == n
        && (i == 0 || !IsWordChar(text[i - 1]))
        && (i + |n| == |text| || !IsWordChar(text[i + |n|]))
  {
    var n := CandidateNames()[k];
    assert IsWordChar(n[0]) && IsWordChar(n[|n| - 1]);
    if i + |n| <= |text| && text[i..i + |n|] == n {
      assert text[i] == text[i..i + |n|][0];
      assert text[i + |n| - 1] == text[i..i + |n|][|n| - 1];
    }
  }

  /** The match ignores case. */
  lemma MentionsIgnoresCase(response: string)
    ensures MentionsCandidates(Lower(response)) == MentionsCandidates(response)
  {
    LowerIdempotent(response);
  }

  /** A candidate's name on its own, in any case, is a mention. */
  lemma NameAloneIsMention(k: nat, response: string)
    requires k < |CandidateNames()|
    requires Lower(response) == CandidateNames()[k]
    ensures MentionsCandidates(response)
  {
    var text := Lower(response);
    assert text[0..|text|] == text;
    BoundedIsWholeWord(text, k, 0);
  }

  /** A candidate's name followed by anything that does not begin with a
      word character is a mention. */
  lemma NameFirstIsMention(k: nat, name: string, rest: string)
    requires k < |CandidateNames()|
    requires Lower(name) == CandidateNames()[k]
    requires rest == [] || !IsWordChar(rest[0])
    ensures MentionsCandidates(name + rest)
  {
    LowerAppend(name, rest);
    var text := Lower(name + rest);
    var n := CandidateNames()[k];
    assert text[..|n|] == n;
    assert |n| < |text| ==> text[|n|] == LowerChar(rest[0]);
    BoundedIsWholeWord(text, k, 0);
    assert BoundedAt(text, 0, n);
  }

  /** "Artés" alone and followed by a space is a mention. */
  lemma ArtesIsMention()
    ensures MentionsCandidates("Art\U{E9}s")
    ensures MentionsCandidates("Art\U{E9}s propone")
  {
    var name, rest := "Art\U{E9}s", " propone";
    assert Lower(name) == CandidateNames()[5];
    NameAloneIsMention(5, name);
    NameFirstIsMention(5, name, rest);
    assert name + rest == "Art\U{E9}s propone";
  }

  /** "Artés" glued to a following letter is no mention. */
  lemma ArtesGluedIsNoMention()
    ensures !MentionsCandidates("Art\U{E9}sx")
  {
    var glued := Lower("Art\U{E9}sx");
    assert glued == "art\U{E9}sx";
    forall k, i | 0 <= k < |CandidateNames()| && 0 <= i <= |glued|
      ensures !BoundedAt(glued, i, CandidateNames()[k])
    {
      var n := CandidateNames()[k];
      BoundedIsWholeWord(glued, k, i);
      assert 0 < |n| && (i + |n| <= |glued| ==> glued[i..i + |n|][0] == glued[i]);
      assert 1 < |n| && (i + |n| <= |glued| ==> glued[i..i + |n|][1] == glued[i + 1]);
    }
  }

  /** A name inside a longer word is not a mention. */
  lemma NameInsideWordIsNoMention()
    ensures !MentionsCandidates("kastillo")
  {
    var text := Lower("kastillo");
    assert text == "kastillo";
    forall k, i | 0 <= k < |CandidateNames()| && 0 <= i <= |text|
      ensures !BoundedAt(text, i, CandidateNames()[k])
    {
      var n := CandidateNames()[k];
      BoundedIsWholeWord(text, k, i);
      assert 0 < |n| && (i + |n| <= |text| ==> text[i..i + |n|][0] == text[i]);
      assert 1 < |n| && (i + |n| <= |text| ==> text[i..i + |n|][1] == text[i + 1]);
    }
  }

  /** The keywords the evaluator expects in a question of each category. */
  function CategoryKeywords(category: string): Option<seq<string>> {
    if category == "pensiones" then
      Some(["pensi\U{F3}n", "afp", "jubilaci\U{F3}n", "previsional", "adulto mayor"])
    else if category == "salud" then
      Some(["salud", "isapre", "fonasa", "hospital", "m\U{E9}dico", "medicamento"])
    else if category == "educaci\U{F3}n" then
      Some(["educaci\U{F3}n", "universidad", "colegio", "liceo", "estudiante", "cae"])
    else if category == "trabajo" then
      Some(["trabajo", "empleo", "salario", "laboral", "sindicato"])
    else if category == "econom\U{ED}a" then
      Some(["econom\U{ED}a", "inflaci\U{F3}n", "precio", "impuesto", "pib", "crecimiento"])
    else if category == "seguridad" then
      Some(["seguridad", "delincuencia", "carabineros", "crimen", "narcotr\U{E1}fico"])
    else if category == "vivienda" then
      Some(["vivienda", "casa", "arriendo", "campamento", "d\U{E9}ficit habitacional"])
    else if category == "medioambiente" then
      Some(["agua", "energ\U{ED}a", "contaminaci\U{F3}n", "sequ\U{ED}a", "litio", "renovable"])
    else if category == "regiones" then
      Some(["regi\U{F3}n", "regional", "descentralizaci\U{F3}n", "territorio"])
    else if category == "institucionalidad" then
      Some(["constituci\U{F3}n", "pol\U{ED}tica", "democracia", "transparencia", "corrupci\U{F3}n"])
    else None
  }

  /** `categoryKeywords[categoryLower] || []`. */
  function ExpectedKeywords(category: string): seq<string> {
    match CategoryKeywords(Lower(category))
    case Some(kws) => kws
    case None => []
  }

  /** `validateClassification`: a classification with a category whose
      expected keywords include one found in the lower-cased question. */
  predicate ValidateClassification(question: string, classification: Option<Classifier.ClassificationResult>) {
    match classification
    case None => false
    case Some(c) =>
      c.category != []
      && exists kw :: kw in ExpectedKeywords(c.category) && Contains(Lower(question), kw)
  }

  /** A category the table does not know is never a correct classification,
      whatever the question. */
  lemma UnknownCategoryIncorrect(question: string, c: Classifier.ClassificationResult)
    requires CategoryKeywords(Lower(c.category)).None?
    ensures !ValidateClassification(question, Some(c))
  {
  }

  /** Neither the case of the question nor that of the category matters. */
  lemma ValidateIgnoresCase(question: string, c: Classifier.ClassificationResult)
    ensures ValidateClassification(Lower(question), Some(c.(category := Lower(c.category))))
            == ValidateClassification(question, Some(c))
  {
    LowerIdempotent(question);
    LowerIdempotent(c.category);
  }

  /** A question that names a keyword of its category is correctly
      classified: "AFP" for "Pensiones". */
  lemma AfpIsPensiones(c: Classifier.ClassificationResult)
    requires c.category == "Pensiones"
    ensures ValidateClassification("AFP", Some(c))
  {
    assert Lower(c.category) == "pensiones";
    assert Lower("AFP") == "afp";
    assert "afp"[0..3] == "afp";
    ContainsAt("afp", "afp", 0);
    assert "afp" in ExpectedKeywords(c.category);
  }

  function ProposalIndicators(): seq<string> {
    ["propone", "plantea", "plan", "medida", "pol\U{ED}tica", "estrategia",
     "proyecto", "iniciativa", "reforma", "programa", "%", "millones",
     "a\U{F1}os", "plazo", "meta", "objetivo"]
  }

  /** The indicators found in the lower-cased response, in list order. */
  function IndicatorsFound(response: string): seq<string> {
    Filter(ProposalIndicators(), ind => Contains(Lower(response), ind))
  }

  /** `hasSpecificProposals`: at least two indicators. */
  predicate HasSpecificProposals(response: string) {
    |IndicatorsFound(response)| >= 2
  }

  /** Specific proposals means two different entries of the indicator list
      occur in the lower-cased response. */
  lemma SpecificProposalsIff(response: string)
    ensures HasSpecificProposals(response)
            <==> exists i, j :: 0 <= i < j < |ProposalIndicators()|
                   && Contains(Lower(response), ProposalIndicators()[i])
                   && Contains(Lower(response), ProposalIndicators()[j])
  {
    FilterAtLeastTwo(ProposalIndicators(), ind => Contains(Lower(response), ind));
  }

  /** One word can count twice: "plantea" contains the indicator "plan". */
  lemma PlanteaCountsTwice()
    ensures HasSpecificProposals("Plantea")
  {
    var text := Lower("Plantea");
    assert text == "plantea";
    assert text[0..7] == "plantea";
    assert text[0..4] == "plan";
    ContainsAt(text, "plantea", 0);
    ContainsAt(text, "plan", 0);
    assert ProposalIndicators()[1] == "plantea" && ProposalIndicators()[2] == "plan";
    SpecificProposalsIff("Plantea");
  }

  function CheckPatterns(question: string, response: string,
                         classification: Option<Classifier.ClassificationResult>, documents: nat): PatternChecks {
    PatternChecks(
      MentionsCandidates(response),
      ValidateClassification(question, classification),
      |response| > 200 && documents > 0,
      HasSpecificProposals(response))
  }

  function PatternPoints(c: PatternChecks): PatternBreakdown {
    PatternBreakdown(
      if c.mentionsCandidates then 25 else 0,
      if c.correctClassification then 35 else -20,
      if c.hasSubstantiveContent then 25 else -15,
      if c.containsSpecificProposals then 15 else 0)
  }

  /** The breakdown summed onto the base of 0. */
  function PatternTotal(b: PatternBreakdown): int {
    b.mentionsCandidates + b.correctClassification + b.hasSubstantiveContent + b.containsSpecificProposals
  }

  function PatternScore(c: PatternChecks): real {
    Normalized(PatternTotal(PatternPoints(c)))
  }

  /** `evaluatePatterns`. */
  function EvaluatePatterns(question: string, response: string,
                            classification: Option<Classifier.ClassificationResult>, documents: nat): PatternEvaluation {
    var c := CheckPatterns(question, response, classification, documents);
    PatternEvaluation(PatternScore(c), c, PatternPoints(c))
  }

  predicate PatternWeaker(c1: PatternChecks, c2: PatternChecks) {
    (c1.mentionsCandidates ==> c2.mentionsCandidates)
    && (c1.correctClassification ==> c2.correctClassification)
    && (c1.hasSubstantiveContent ==> c2.hasSubstantiveContent)
    && (c1.containsSpecificProposals ==> c2.containsSpecificProposals)
  }

  /** Passing more pattern checks never lowers the pattern score. */
  lemma PatternScoreMonotone(c1: PatternChecks, c2: PatternChecks)
    requires PatternWeaker(c1, c2)
    ensures PatternScore(c1) <= PatternScore(c2)
  {
    var t1 := PatternTotal(PatternPoints(c1));
    var t2 := PatternTotal(PatternPoints(c2));
    assert t1 <= t2;
    assert Clamp100(t1) <= Clamp100(t2);
  }

  /** All four pattern checks give exactly 1, all four failing give 0, and
      a wrong classification without substantive content gives at most
      0.05 whatever else holds. */
  lemma PatternScoreBounds(c: PatternChecks)
    ensures (c.mentionsCandidates && c.correctClassification && c.hasSubstantiveContent
             && c.containsSpecificProposals) ==> PatternScore(c) == 1.0
    ensures (!c.mentionsCandidates && !c.correctClassification && !c.hasSubstantiveContent
             && !c.containsSpecificProposals) ==> PatternScore(c) == 0.0
    ensures !c.correctClassification && !c.hasSubstantiveContent ==> PatternScore(c) <= 0.05
  {
  }

  // ---------------------------------------------------------------------
  // Verdict, issues, recommendations
  // ---------------------------------------------------------------------

  /** `determineVerdict`. */
  function DetermineVerdict(finalScore: real, documentsFound: bool, sourceQuality: real): Verdict {
    if finalScore < 0.4 then Critical
    else if finalScore < 0.6 then Fail
    else if !documentsFound && sourceQuality < 20.0 then Critical
    else Pass
  }

  function Rank(v: Verdict): nat {
    match v
    case Critical => 0
    case Fail => 1
    case Pass => 2
  }

  /** A verdict of PASS needs a final score of at least 0.6 and either
      documents or a source quality of at least 20, and these suffice. */
  lemma PassIff(finalScore: real, documentsFound: bool, sourceQuality: real)
    ensures DetermineVerdict(finalScore, documentsFound, sourceQuality) == Pass
            <==> finalScore >= 0.6 && (documentsFound || sourceQuality >= 20.0)
  {
  }

  /** With documents, or with sources of quality at least 20, a higher
      final score never gives a worse verdict. */
  lemma VerdictMonotone(f1: real, f2: real, documentsFound: bool, sourceQuality: real)
    requires f1 <= f2
    requires documentsFound || sourceQuality >= 20.0
    ensures Rank(DetermineVerdict(f1, documentsFound, sourceQuality))
            <= Rank(DetermineVerdict(f2, documentsFound, sourceQuality))
  {
  }

  /** Without documents and with poor sources the verdict is not monotone:
      0.5 is a FAIL, 0.9 is CRITICAL. */
  lemma VerdictNotMonotone()
    ensures DetermineVerdict(0.5, false, 10.0) == Fail
    ensures DetermineVerdict(0.9, false, 10.0) == Critical
    ensures Rank(DetermineVerdict(0.5, false, 10.0)) > Rank(DetermineVerdict(0.9, false, 10.0))
  {
  }

  function Flag(b: bool): nat { if b then 1 else 0 }

  /** Four distinct messages, each listed when its condition holds: each is
      present exactly when its condition holds, and none twice. */
  lemma FourFlags<T>(b1: bool, x1: T, b2: bool, x2: T, b3: bool, x3: T, b4: bool, x4: T)
    requires x1 != x2 && x1 != x3 && x1 != x4 && x2 != x3 && x2 != x4 && x3 != x4
    ensures var s := (if b1 then [x1] else []) + (if b2 then [x2] else [])
                     + (if b3 then [x3] else []) + (if b4 then [x4] else []);
      && |s| == Flag(b1) + Flag(b2) + Flag(b3) + Flag(b4)
      && (x1 in s <==> b1) && (x2 in s <==> b2) && (x3 in s <==> b3) && (x4 in s <==> b4)
      && NoDuplicates(s)
  {
    var s1 := if b1 then [x1] else [];
    var s2 := s1 + (if b2 then [x2] else []);
    var s3 := s2 + (if b3 then [x3] else []);
    AppendNew(s1, b2, x2);
    AppendNew(s2, b3, x3);
    AppendNew(s3, b4, x4);
  }

  /** Appending, when the condition holds, a message not yet listed keeps
      the list free of repetitions. */
  lemma AppendNew<T>(s: seq<T>, b: bool, x: T)
    requires NoDuplicates(s)
    ensures x !in s ==> NoDuplicates(s + (if b then [x] else []))
  {
    if b && x !in s {
      var t := s + [x];
      forall i, j | 0 <= i < j < |t| ensures t[i] != t[j] {
        if j == |s| {
          assert t[i] == s[i];
        } else {
          assert t[i] == s[i] && t[j] == s[j];
        }
      }
    } else {
      assert s + [] == s;
    }
  }

  /** `getHeuristicIssues`. */
  function HeuristicIssues(c: HeuristicChecks): seq<string> {
    (if !c.documentsFound then ["No documents found"] else [])
    + (if !c.responseLengthAdequate then ["Response length inadequate"] else [])
    + (if !c.classificationConfidenceHigh then ["Low classification confidence"] else [])
    + (if !c.notGenericResponse then ["Generic response"] else [])
  }

  /** One issue per failed check, each present exactly when its check
      fails. */
  lemma HeuristicIssuesShape(c: HeuristicChecks)
    ensures |HeuristicIssues(c)| == Flag(!c.documentsFound) + Flag(!c.responseLengthAdequate)
                                    + Flag(!c.classificationConfidenceHigh) + Flag(!c.notGenericResponse)
    ensures "No documents found" in HeuristicIssues(c) <==> !c.documentsFound
    ensures "Response length inadequate" in HeuristicIssues(c) <==> !c.responseLengthAdequate
    ensures "Low classification confidence" in HeuristicIssues(c) <==> !c.classificationConfidenceHigh
    ensures "Generic response" in HeuristicIssues(c) <==> !c.notGenericResponse
    ensures NoDuplicates(HeuristicIssues(c))
  {
    FourFlags(!c.documentsFound, "No documents found",
              !c.responseLengthAdequate, "Response length inadequate",
              !c.classificationConfidenceHigh, "Low classification confidence",
              !c.notGenericResponse, "Generic response");
  }

  /** `getPatternIssues`. */
  function PatternIssues(c: PatternChecks): seq<string> {
    (if !c.mentionsCandidates then ["No candidates mentioned"] else [])
    + (if !c.correctClassification then ["Incorrect classification"] else [])
    + (if !c.hasSubstantiveContent then ["Lacks substantive content"] else [])
    + (if !c.containsSpecificProposals then ["No specific proposals"] else [])
  }

  lemma PatternIssuesShape(c: PatternChecks)
    ensures |PatternIssues(c)| == Flag(!c.mentionsCandidates) + Flag(!c.correctClassification)
                                  + Flag(!c.hasSubstantiveContent) + Flag(!c.containsSpecificProposals)
    ensures "No candidates mentioned" in PatternIssues(c) <==> !c.mentionsCandidates
    ensures "Incorrect classification" in PatternIssues(c) <==> !c.correctClassification
    ensures "Lacks substantive content" in PatternIssues(c) <==> !c.hasSubstantiveContent
    ensures "No specific proposals" in PatternIssues(c) <==> !c.containsSpecificProposals
    ensures NoDuplicates(PatternIssues(c))
  {
    FourFlags(!c.mentionsCandidates, "No candidates mentioned",
              !c.correctClassification, "Incorrect classification",
              !c.hasSubstantiveContent, "Lacks substantive content",
              !c.containsSpecificProposals, "No specific proposals");
  }

  /** `generateRecommendations`. */
  function Recommendations(ai: AiEvaluation, h: HeuristicChecks, p: PatternChecks): seq<string> {
    (if !h.documentsFound then ["Check document indexing and taxonomy mapping"] else [])
    + (if !p.correctClassification then ["Review query classification algorithm"] else [])
    + (if ai.completeness < 60.0 then ["Improve response completeness - add more context"] else [])
    + (if ai.sourceQuality < 60.0 then ["Review document chunking and embedding quality"] else [])
  }

  /** Each recommendation is present exactly when its condition holds, and
      none is repeated. */
  lemma RecommendationsShape(ai: AiEvaluation, h: HeuristicChecks, p: PatternChecks)
    ensures "Check document indexing and taxonomy mapping" in Recommendations(ai, h, p) <==> !h.documentsFound
    ensures "Review query classification algorithm" in Recommendations(ai, h, p) <==> !p.correctClassification
    ensures "Improve response completeness - add more context" in Recommendations(ai, h, p)
            <==> ai.completeness < 60.0
    ensures "Review document chunking and embedding quality" in Recommendations(ai, h, p)
            <==> ai.sourceQuality < 60.0
    ensures NoDuplicates(Recommendations(ai, h, p))
  {
    FourFlags(!h.documentsFound, "Check document indexing and taxonomy mapping",
              !p.correctClassification, "Review query classification algorithm",
              ai.completeness < 60.0, "Improve response completeness - add more context",
              ai.sourceQuality < 60.0, "Review document chunking and embedding quality");
  }

  // ---------------------------------------------------------------------
  // The combination
  // ---------------------------------------------------------------------

  datatype EvaluationResult = EvaluationResult(
    finalScore: real,
    ai: AiEvaluation,
    heuristic: HeuristicEvaluation,
    pattern: PatternEvaluation,
    verdict: Verdict,
    issues: seq<string>,
    recommendations: seq<string>)

  const AiWeight: real := 0.7
  const HeuristicWeight: real := 0.2
  const PatternWeight: real := 0.1

  /** `evaluate` once the judge's evaluation is known: the weighted score,
      the verdict, and the issues and recommendations without repetitions. */
  function Evaluate(question: string, response: string, classification: Option<Classifier.ClassificationResult>,
                    documents: nat, ai: AiEvaluation): EvaluationResult {
    var h := EvaluateHeuristics(response, classification, documents);
    var p := EvaluatePatterns(question, response, classification, documents);
    var finalScore := ai.score * AiWeight + h.score * HeuristicWeight + p.score * PatternWeight;
    EvaluationResult(
      finalScore, ai, h, p,
      DetermineVerdict(finalScore, h.checks.documentsFound, ai.sourceQuality),
      Dedup(ai.identifiedIssues + HeuristicIssues(h.checks) + PatternIssues(p.checks)),
      Dedup(Recommendations(ai, h.checks, p.checks)))
  }

  /** With a judge score in [0, 1] the final score is in [0, 1]; the
      issues are exactly those of the judge and of the failed checks, once
      each; the recommendations are passed on unchanged. */
  lemma EvaluateShape(question: string, response: string, classification: Option<Classifier.ClassificationResult>,
                      documents: nat, ai: AiEvaluation)
    ensures var r := Evaluate(question, response, classification, documents, ai);
      && (0.0 <= ai.score <= 1.0 ==> 0.0 <= r.finalScore <= 1.0)
      && NoDuplicates(r.issues)
      && (forall x :: x in r.issues <==> x in ai.identifiedIssues || x in HeuristicIssues(r.heuristic.checks)
                                         || x in PatternIssues(r.pattern.checks))
      && r.recommendations == Recommendations(ai, r.heuristic.checks, r.pattern.checks)
      && r.heuristic.score == HeuristicScore(r.heuristic.checks, documents)
      && r.pattern.score == PatternScore(r.pattern.checks)
  {
    var r := Evaluate(question, response, classification, documents, ai);
    RecommendationsShape(ai, r.heuristic.checks, r.pattern.checks);
    DedupDistinct(Recommendations(ai, r.heuristic.checks, r.pattern.checks));
    var all := ai.identifiedIssues + HeuristicIssues(r.heuristic.checks) + PatternIssues(r.pattern.checks);
    assert forall x :: x in all <==> x in ai.identifiedIssues || x in HeuristicIssues(r.heuristic.checks)
                                     || x in PatternIssues(r.pattern.checks);
  }

  /** The issues keep the order in which they first occur: the judge's
      issues first, then those of the failed heuristic and pattern
      checks. */
  lemma EvaluateIssueOrder(question: string, response: string, classification: Option<Classifier.ClassificationResult>,
                           documents: nat, ai: AiEvaluation)
    ensures var r := Evaluate(question, response, classification, documents, ai);
      var heuristic := HeuristicIssues(r.heuristic.checks);
      && r.issues == Dedup(ai.identifiedIssues + heuristic + PatternIssues(r.pattern.checks))
      && |Dedup(ai.identifiedIssues)| <= |Dedup(ai.identifiedIssues + heuristic)| <= |r.issues|
      && r.issues[..|Dedup(ai.identifiedIssues)|] == Dedup(ai.identifiedIssues)
      && r.issues[..|Dedup(ai.identifiedIssues + heuristic)|] == Dedup(ai.identifiedIssues + heuristic)
  {
    var r := Evaluate(question, response, classification, documents, ai);
    DedupPrefixes(ai.identifiedIssues, HeuristicIssues(r.heuristic.checks), PatternIssues(r.pattern.checks));
  }

  /** A final score below 0.4 is CRITICAL whatever the other parts say, and
      an answer without documents whose sources the judge rates below 20
      never passes. */
  lemma EvaluateVerdict(question: string, response: string, classification: Option<Classifier.ClassificationResult>,
                        documents: nat, ai: AiEvaluation)
    ensures var r := Evaluate(question, response, classification, documents, ai);
      && (r.finalScore < 0.4 ==> r.verdict == Critical)
      && (documents == 0 && ai.sourceQuality < 20.0 ==> r.verdict != Pass)
  {
    var c := CheckHeuristics(response, classification, documents);
    var r := Evaluate(question, response, classification, documents, ai);
    assert r.heuristic.checks == c;
    assert r.verdict == DetermineVerdict(r.finalScore, c.documentsFound, ai.sourceQuality);
    assert documents == 0 ==> !c.documentsFound;
    PassIff(r.finalScore, c.documentsFound, ai.sourceQuality);
  }
}
