// The parser of the markdown question list used by the test runner: `###`
// headers set the current category, numbered lines become questions with
// consecutive ids, a mapped category, expected topics and a difficulty.

module QuestionParsing {
  import opened Text

  datatype Difficulty = Basic | Medium | Complex

  datatype TestQuestion = TestQuestion(
    id: int,
    category: string,
    question: string,
    expectedTopics: seq<string>,
    difficulty: Difficulty,
    section: string)

  // ---------------------------------------------------------------------
  // Category mapping
  // ---------------------------------------------------------------------

  /** Entry i of the table of header names and the taxonomy category each
      stands for. */
  function CategoryEntry(i: nat): (string, string)
    requires i < 15
  {
    match i
    case 0 => ("Pensiones y Seguridad Social", "Pensiones")
    case 1 => ("Salud", "Salud")
    case 2 => ("Educaci\U{F3}n", "Educaci\U{F3}n")
    case 3 => ("Trabajo y Salarios", "Trabajo")
    case 4 => ("Econom\U{ED}a y Costo de la Vida", "Econom\U{ED}a")
    case 5 => ("Seguridad y Crimen Organizado", "Seguridad")
    case 6 => ("Vivienda y Ciudad", "Vivienda")
    case 7 => ("Medioambiente y Energ\U{ED}a", "Medioambiente")
    case 8 => ("Descentralizaci\U{F3}n y Regiones", "Regiones")
    case 9 => ("Institucionalidad y Pol\U{ED}tica", "Institucionalidad")
    case 10 => ("Seguridad, crimen y migraci\U{F3}n", "Seguridad")
    case 11 => ("Infraestructura y crisis energ\U{E9}tica", "Medioambiente")
    case 12 => ("Igualdad y bienestar social", "Institucionalidad")
    case 13 => ("Migraci\U{F3}n e integraci\U{F3}n social", "Migraci\U{F3}n")
    case _ => ("Institucionalidad, memoria hist\U{F3}rica y derechos", "Memoria Hist\U{F3}rica")
  }

  /** The table as a sequence, in entry order. */
  function CategoryTable(): (t: seq<(string, string)>)
    ensures |t| == 15
  {
    seq(15, i requires 0 <= i < 15 => CategoryEntry(i))
  }

  /** The value of the first entry with that key. */
  function Lookup(table: seq<(string, string)>, key: string): (r: Option<string>)
    ensures r.Some? ==> (key, r.value) in table
    ensures r.None? <==> forall i :: 0 <= i < |table| ==> table[i].0 != key
  {
    if table == [] then None
    else if table[0].0 == key then Some(table[0].1)
    else Lookup(table[1..], key)
  }

  /** The lookup finds the first entry with the key. */
  lemma {:induction false} LookupFirst(table: seq<(string, string)>, key: string, i: nat)
    requires i < |table| && table[i].0 == key
    requires forall j :: 0 <= j < i ==> table[j].0 != key
    ensures Lookup(table, key) == Some(table[i].1)
  {
    if i > 0 {
      assert forall j :: 0 <= j < i - 1 ==> table[1..][j] == table[j + 1];
      LookupFirst(table[1..], key, i - 1);
    }
  }

  /** No header name is listed twice. */
  lemma CategoryKeysDistinct()
    ensures forall i, j :: 0 <= i < j < 15 ==> CategoryEntry(i).0 != CategoryEntry(j).0
  {
  }

  /** `normalizeCategory`: the mapped name, or the header name itself. */
  function NormalizeCategory(category: string): (r: string)
    ensures (forall i :: 0 <= i < 15 ==> CategoryEntry(i).0 != category) ==> r == category
  {
    match Lookup(CategoryTable(), category)
    case Some(c) => c
    case None => category
  }

  /** A listed header name is mapped to its taxonomy category. */
  lemma NormalizeListed(i: nat)
    requires i < 15
    ensures NormalizeCategory(CategoryEntry(i).0) == CategoryEntry(i).1
  {
    CategoryKeysDistinct();
    var table := CategoryTable();
    assert forall j :: 0 <= j < 15 ==> table[j] == CategoryEntry(j);
    LookupFirst(table, CategoryEntry(i).0, i);
  }

  /** The header names other than `Salud` and `Educación` are longer than
      seventeen characters, except one. */
  lemma HeaderNameLengths()
    ensures forall j :: 0 <= j < 15 && j != 1 && j != 2 ==>
              |CategoryEntry(j).0| > 17 || CategoryEntry(j).0 == "Vivienda y Ciudad"
  {
  }

  /** The taxonomy categories are at most seventeen characters long, and
      neither `Salud` nor `Educación` stands for another category. */
  lemma CategoryNameLengths()
    ensures forall i :: 0 <= i < 15 ==> |CategoryEntry(i).1| <= 17 && CategoryEntry(i).1 != "Vivienda y Ciudad"
    ensures forall i :: 0 <= i < 15 && i != 1 && i != 2 ==>
              CategoryEntry(i).1 != CategoryEntry(1).0 && CategoryEntry(i).1 != CategoryEntry(2).0
  {
  }

  /** Every taxonomy category of the table maps to itself: it is either no
      header name at all or one listed with itself. */
  lemma MappedFixed(i: nat)
    requires i < 15
    ensures NormalizeCategory(CategoryEntry(i).1) == CategoryEntry(i).1
  {
    if i == 1 || i == 2 {
      NormalizeListed(i);
    } else {
      HeaderNameLengths();
      CategoryNameLengths();
      var v := CategoryEntry(i).1;
      assert forall j :: 0 <= j < 15 ==> CategoryEntry(j).0 != v;
    }
  }

  /** Mapping a category a second time changes nothing. */
  lemma NormalizeCategoryIdempotent(category: string)
    ensures NormalizeCategory(NormalizeCategory(category)) == NormalizeCategory(category)
  {
    var table := CategoryTable();
    match Lookup(table, category)
    case None =>
    case Some(c) =>
      var i :| 0 <= i < 15 && table[i] == (category, c);
      MappedFixed(i);
  }

  // ---------------------------------------------------------------------
  // Expected topics and difficulty
  // ---------------------------------------------------------------------

  function TopicKeywords(): seq<string> {
    ["AFP", "pensiones", "jubilaci\U{F3}n", "Fonasa", "Isapres", "salud",
     "educaci\U{F3}n", "universidad", "colegio", "trabajo", "salario",
     "inflaci\U{F3}n", "econom\U{ED}a", "seguridad", "delincuencia", "vivienda",
     "medioambiente", "energ\U{ED}a", "regiones", "descentralizaci\U{F3}n"]
  }

  /** The keywords whose lower-cased form occurs in the lower-cased text
      lq, in list order. */
  function KeywordsIn(keys: seq<string>, lq: string): seq<string> {
    if keys == [] then []
    else
      var k := keys[|keys| - 1];
      KeywordsIn(keys[..|keys| - 1], lq) + (if Contains(lq, Lower(k)) then [k] else [])
  }

  lemma {:induction false} KeywordsInFilter(keys: seq<string>, lq: string)
    ensures KeywordsIn(keys, lq) == Filter(keys, k => Contains(lq, Lower(k)))
  {
    if keys != [] {
      KeywordsInFilter(keys[..|keys| - 1], lq);
    }
  }

  /** The topic keywords the question mentions, ignoring case, in list order. */
  function TopicsMentioned(question: string): seq<string> {
    KeywordsIn(TopicKeywords(), Lower(question))
  }

  /** `extractExpectedTopics`: the header category, then the keywords the
      question mentions, without repetitions. */
  function ExtractExpectedTopics(question: string, category: string): seq<string> {
    Dedup([category] + TopicsMentioned(question))
  }

  /** The header category comes first; every other topic is a listed
      keyword the question mentions, ignoring case; none is repeated. */
  lemma ExpectedTopicsShape(question: string, category: string)
    ensures var r := ExtractExpectedTopics(question, category);
      && |r| >= 1 && r[0] == category
      && NoDuplicates(r)
      && forall x :: x in r <==> x == category
                                 || (x in TopicKeywords() && Contains(Lower(question), Lower(x)))
  {
    KeywordsInFilter(TopicKeywords(), Lower(question));
    DedupPrefix([category], TopicsMentioned(question));
    assert Dedup([category]) == [category] by {
      assert [category][..0] == [];
    }
    var all := [category] + TopicsMentioned(question);
    assert forall x :: x in all <==> x == category || x in TopicsMentioned(question);
  }

  function ComplexIndicators(): seq<string> {
    ["c\U{F3}mo", "estrategia", "plan", "implementar\U{E1}", "pol\U{ED}tica",
     "medidas espec\U{ED}ficas", "financiamiento", "reforma"]
  }

  /** The indicators that occur in the lower-cased text lq, in list order. */
  function IndicatorsFrom(inds: seq<string>, lq: string): seq<string> {
    if inds == [] then []
    else
      var ind := inds[|inds| - 1];
      IndicatorsFrom(inds[..|inds| - 1], lq) + (if Contains(lq, ind) then [ind] else [])
  }

  lemma {:induction false} IndicatorsFromFilter(inds: seq<string>, lq: string)
    ensures IndicatorsFrom(inds, lq) == Filter(inds, ind => Contains(lq, ind))
  {
    if inds != [] {
      IndicatorsFromFilter(inds[..|inds| - 1], lq);
    }
  }

  function IndicatorsIn(question: string): seq<string> {
    IndicatorsFrom(ComplexIndicators(), Lower(question))
  }

  /** `assessDifficulty`: complex from two indicators, medium from one. */
  function AssessDifficulty(question: string): Difficulty {
    var n := |IndicatorsIn(question)|;
    if n >= 2 then Complex else if n >= 1 then Medium else Basic
  }

  /** Basic exactly when no indicator occurs in the lower-cased question,
      complex exactly when two different ones do. */
  lemma DifficultyIff(question: string)
    ensures AssessDifficulty(question) == Basic
            <==> forall i :: 0 <= i < |ComplexIndicators()| ==> !Contains(Lower(question), ComplexIndicators()[i])
    ensures AssessDifficulty(question) == Complex
            <==> exists i, j :: 0 <= i < j < |ComplexIndicators()|
                   && Contains(Lower(question), ComplexIndicators()[i])
                   && Contains(Lower(question), ComplexIndicators()[j])
  {
    var lq := Lower(question);
    var p := ind => Contains(lq, ind);
    IndicatorsFromFilter(ComplexIndicators(), lq);
    FilterAtLeastTwo(ComplexIndicators(), p);
    var found := IndicatorsIn(question);
    if found != [] {
      assert found[0] in ComplexIndicators() && p(found[0]);
    }
    forall i | 0 <= i < |ComplexIndicators()| && p(ComplexIndicators()[i])
      ensures found != []
    {
      assert ComplexIndicators()[i] in found;
    }
  }

  // ---------------------------------------------------------------------
  // Recognising lines
  // ---------------------------------------------------------------------

  predicate IsDigit(c: char) { '0' <= c <= '9' }

  /** The number of leading decimal digits. */
  function LeadingDigits(s: string): (n: nat)
    ensures n <= |s|
    ensures forall i :: 0 <= i < n ==> IsDigit(s[i])
    ensures n < |s| ==> !IsDigit(s[n])
  {
    if s != [] && IsDigit(s[0]) then 1 + LeadingDigits(s[1..]) else 0
  }

  /** `/^\d+\./`. */
  predicate IsNumbered(t: string) {
    var n := LeadingDigits(t);
    0 < n < |t| && t[n] == '.'
  }

  /** The characters JavaScript's `.` does not match (`\n` cannot occur in
      a line of `split('\n')`, but is listed for completeness). */
  predicate IsLineTerminator(c: char) {
    c == '\n' || c == '\r' || c == '\U{2028}' || c == '\U{2029}'
  }

  /** What `(.+)` captures: everything before the first line terminator. */
  function UntilTerminator(s: string): (r: string)
    ensures |r| <= |s| && r == s[..|r|]
    ensures forall i :: 0 <= i < |r| ==> !IsLineTerminator(r[i])
  {
    if s == [] || IsLineTerminator(s[0]) then [] else [s[0]] + UntilTerminator(s[1..])
  }

  /** `trimmedLine.match(/^\d+\.\s*(.+)/)`, then `trim()` of the group.
      After the greedy `\s*` the next character, if any, is not a space, so
      the group is what follows up to a line terminator; when only spaces
      follow, the match either fails or captures one space, and both give
      no question (the second because its text is empty). */
  function QuestionText(t: string): Option<string> {
    if !IsNumbered(t) then None
    else
      var rest := TrimStart(t[LeadingDigits(t) + 1..]);
      if rest == [] then None else Some(Trim(UntilTerminator(rest)))
  }

  /** `trimmedLine.startsWith('### ')` (which also contains a space). */
  predicate IsHeader(t: string) {
    StartsWith(t, "### ")
  }

  /** A line that yields a question: numbered, with at least ten characters
      of text after the number. */
  predicate YieldsQuestion(line: string) {
    Yields(QuestionText(Trim(line)))
  }

  // ---------------------------------------------------------------------
  // The line loop
  // ---------------------------------------------------------------------

  /** The loop variables of `parseQuestions` and the questions pushed so far. */
  datatype ParseState = ParseState(category: string, section: string, nextId: int, parsed: seq<TestQuestion>)

  const Start := ParseState("", "", 1, [])

  /** The name a trimmed `### ` line gives the current category and
      section; headerName stands for the emoji-stripping regular
      expression applied to a header line. */
  function HeaderOf(t: string, headerName: string -> string): Option<string> {
    if IsHeader(t) then Some(headerName(t)) else None
  }

  /** The record pushed for a question text under the current header. */
  function NewQuestion(id: int, category: string, section: string, q: string): TestQuestion {
    TestQuestion(id, NormalizeCategory(category), q, ExtractExpectedTopics(q, category), AssessDifficulty(q), section)
  }

  /** A captured question text of at least ten characters. */
  predicate Yields(text: Option<string>) {
    text.Some? && |text.value| >= 10
  }

  /** The loop's bookkeeping does not depend on how a record is built from
      its id, the current category and section, and its text, so the steps
      below take the builder as a parameter; the parser uses NewQuestion. */
  type Builder = (int, string, string, string) -> TestQuestion

  /** One iteration, given what the trimmed line is: a header renames the
      category and section, then a question text of at least ten characters
      is pushed under the next id. */
  function StepWith(st: ParseState, header: Option<string>, text: Option<string>, build: Builder): ParseState {
    var st1 := if header.Some? then st.(category := header.value, section := header.value) else st;
    if Yields(text) then
      st1.(nextId := st1.nextId + 1,
           parsed := st1.parsed + [build(st1.nextId, st1.category, st1.section, text.value)])
    else st1
  }

  /** The loop over the lines, one line at a time from the first. */
  function RunWith(lines: seq<string>, headerName: string -> string, build: Builder): ParseState {
    if lines == [] then Start
    else
      var t := Trim(lines[|lines| - 1]);
      StepWith(RunWith(lines[..|lines| - 1], headerName, build), HeaderOf(t, headerName), QuestionText(t), build)
  }

  /** What `parseQuestions` computes from the lines of the file. */
  function RunLines(lines: seq<string>, headerName: string -> string): ParseState {
    RunWith(lines, headerName, NewQuestion)
  }

  /** The question at position k was built under id k + 1 from its own
      section and text, which has at least ten characters. */
  predicate BuiltAt(q: TestQuestion, k: int, build: Builder) {
    q == build(k + 1, q.section, q.section, q.question) && |q.question| >= 10
  }

  /** A builder that records the section and the text it is given. */
  ghost predicate KeepsText(build: Builder) {
    forall id, c, s, q :: build(id, c, s, q).section == s && build(id, c, s, q).question == q
  }

  lemma NewQuestionKeepsText()
    ensures KeepsText(NewQuestion)
  {
  }

  predicate WellBuilt(st: ParseState, build: Builder) {
    st.category == st.section
    && st.nextId == |st.parsed| + 1
    && forall k :: 0 <= k < |st.parsed| ==> BuiltAt(st.parsed[k], k, build)
  }

  /** One iteration appends at most one question and keeps the rest. */
  lemma StepExtends(st: ParseState, header: Option<string>, text: Option<string>, build: Builder)
    ensures var r := StepWith(st, header, text, build);
      && r.parsed[..|st.parsed|] == st.parsed
      && |r.parsed| == |st.parsed| + (if Yields(text) then 1 else 0)
  {
  }

  lemma StepKeepsWellBuilt(st: ParseState, header: Option<string>, text: Option<string>, build: Builder)
    requires KeepsText(build) && WellBuilt(st, build)
    ensures WellBuilt(StepWith(st, header, text, build), build)
  {
    if Yields(text) {
      var st1 := if header.Some? then st.(category := header.value, section := header.value) else st;
      var r := st1.parsed + [build(st1.nextId, st1.category, st1.section, text.value)];
      assert forall k :: 0 <= k < |st1.parsed| ==> r[k] == st1.parsed[k];
    }
  }

  lemma {:induction false} RunWithWellBuilt(lines: seq<string>, headerName: string -> string, build: Builder)
    requires KeepsText(build)
    ensures WellBuilt(RunWith(lines, headerName, build), build)
    ensures |RunWith(lines, headerName, build).parsed| == |Filter(lines, YieldsQuestion)|
  {
    if lines != [] {
      var init := lines[..|lines| - 1];
      var last := lines[|lines| - 1];
      RunWithWellBuilt(init, headerName, build);
      var t := Trim(last);
      StepKeepsWellBuilt(RunWith(init, headerName, build), HeaderOf(t, headerName), QuestionText(t), build);
      StepExtends(RunWith(init, headerName, build), HeaderOf(t, headerName), QuestionText(t), build);
      assert lines == init + [last];
      FilterAppend(init, [last], YieldsQuestion);
    }
  }

  /** What a well-formed parse says of its question at position k: its id
      is k + 1, its category the mapped name of its section, and its topics
      and difficulty those of its text of at least ten characters. */
  predicate QuestionOk(q: TestQuestion, k: int) {
    && q.id == k + 1 && |q.question| >= 10
    && q.category == NormalizeCategory(q.section)
    && q.expectedTopics == ExtractExpectedTopics(q.question, q.section)
    && q.difficulty == AssessDifficulty(q.question)
  }

  lemma BuiltAtOk(q: TestQuestion, k: int)
    requires BuiltAt(q, k, NewQuestion)
    ensures QuestionOk(q, k)
  {
  }

  /** Within one parse the ids are 1, 2, 3, ... in line order, one per line
      that yields a question; each question's category is the mapped name
      of the header above it, which is also its section. */
  lemma RunLinesWellParsed(lines: seq<string>, headerName: string -> string)
    ensures var st := RunLines(lines, headerName);
      && |st.parsed| == |Filter(lines, YieldsQuestion)|
      && st.nextId == |st.parsed| + 1
      && forall k :: 0 <= k < |st.parsed| ==> QuestionOk(st.parsed[k], k)
  {
    NewQuestionKeepsText();
    RunWithWellBuilt(lines, headerName, NewQuestion);
    var st := RunLines(lines, headerName);
    forall k | 0 <= k < |st.parsed| ensures QuestionOk(st.parsed[k], k) {
      BuiltAtOk(st.parsed[k], k);
    }
  }

  /** Later lines never change the questions already parsed. */
  lemma {:induction false} RunWithPrefix(lines: seq<string>, more: seq<string>, headerName: string -> string, build: Builder)
    ensures |RunWith(lines, headerName, build).parsed| <= |RunWith(lines + more, headerName, build).parsed|
    ensures RunWith(lines + more, headerName, build).parsed[..|RunWith(lines, headerName, build).parsed|]
            == RunWith(lines, headerName, build).parsed
    decreases |more|
  {
    if more == [] {
      assert lines + more == lines;
    } else {
      var all := lines + more;
      var init := more[..|more| - 1];
      assert all[..|all| - 1] == lines + init;
      RunWithPrefix(lines, init, headerName, build);
      var t := Trim(all[|all| - 1]);
      var st := RunWith(lines + init, headerName, build);
      assert RunWith(all, headerName, build) == StepWith(st, HeaderOf(t, headerName), QuestionText(t), build);
      StepExtends(st, HeaderOf(t, headerName), QuestionText(t), build);
      PrefixTrans(RunWith(lines, headerName, build).parsed, st.parsed, RunWith(all, headerName, build).parsed);
    }
  }

  lemma RunLinesPrefix(lines: seq<string>, more: seq<string>, headerName: string -> string)
    ensures |RunLines(lines, headerName).parsed| <= |RunLines(lines + more, headerName).parsed|
    ensures RunLines(lines + more, headerName).parsed[..|RunLines(lines, headerName).parsed|]
            == RunLines(lines, headerName).parsed
  {
    RunWithPrefix(lines, more, headerName, NewQuestion);
  }

  /** A numbered line is not a header line. */
  lemma NumberedIsNoHeader(t: string)
    requires IsNumbered(t)
    ensures !IsHeader(t)
  {
    assert IsDigit(t[0]);
  }

  /** A header line names the category of the questions after it. */
  lemma HeaderSetsCategory(lines: seq<string>, header: string, headerName: string -> string)
    requires IsHeader(Trim(header))
    ensures RunLines(lines + [header], headerName).category == headerName(Trim(header))
    ensures RunLines(lines + [header], headerName).section == headerName(Trim(header))
  {
    var all := lines + [header];
    assert all[..|all| - 1] == lines;
    var t := Trim(header);
    if IsNumbered(t) {
      NumberedIsNoHeader(t);
    }
  }

  /** A question line that is no header appends the record built under the
      current id, category and section. */
  lemma StepAppends(st: ParseState, header: Option<string>, text: Option<string>, build: Builder)
    requires header.None? && Yields(text)
    ensures StepWith(st, header, text, build).parsed
            == st.parsed + [build(st.nextId, st.category, st.section, text.value)]
  {
  }

  /** A header followed by a question line: the question is built under
      the header's name as both category and section. */
  lemma HeaderThenQuestionWith(lines: seq<string>, header: string, line: string, headerName: string -> string, build: Builder)
    requires IsHeader(Trim(header)) && YieldsQuestion(line)
    ensures var st := RunWith(lines + [header, line], headerName, build);
      var name := headerName(Trim(header));
      && st.parsed != []
      && st.parsed[|st.parsed| - 1]
         == build(RunWith(lines, headerName, build).nextId, name, name, QuestionText(Trim(line)).value)
  {
    var all := lines + [header, line];
    assert all[..|all| - 1] == lines + [header];
    assert (lines + [header])[..|lines|] == lines;
    var h := Trim(header);
    if IsNumbered(h) {
      NumberedIsNoHeader(h);
    }
    var t := Trim(line);
    NumberedIsNoHeader(t);
    var st0 := RunWith(lines + [header], headerName, build);
    StepAppends(st0, HeaderOf(t, headerName), QuestionText(t), build);
  }

  /** A header followed by a question line: the question's section is the
      header's name and its category the mapped name. */
  lemma HeaderThenQuestion(lines: seq<string>, header: string, line: string, headerName: string -> string)
    requires IsHeader(Trim(header)) && YieldsQuestion(line)
    ensures var st := RunLines(lines + [header, line], headerName);
      && st.parsed != []
      && st.parsed[|st.parsed| - 1].section == headerName(Trim(header))
      && st.parsed[|st.parsed| - 1].category == NormalizeCategory(headerName(Trim(header)))
      && st.parsed[|st.parsed| - 1].question == QuestionText(Trim(line)).value
  {
    HeaderThenQuestionWith(lines, header, line, headerName, NewQuestion);
  }

  // ---------------------------------------------------------------------
  // The parser object
  // ---------------------------------------------------------------------

  class QuestionParser {
    /** Every question parsed by this object, across calls. */
    var questions: seq<TestQuestion>

    constructor()
      ensures questions == []
    {
      questions := [];
    }

    /** `parseQuestions` over the lines of the file: the loop pushes onto
        the stored list, which is never cleared, and returns the whole
        stored list. */
    method ParseQuestions(lines: seq<string>, headerName: string -> string) returns (r: seq<TestQuestion>)
      modifies this
      ensures questions == old(questions) + RunLines(lines, headerName).parsed
      ensures r == questions
    {
      var currentCategory := "";
      var currentSection := "";
      var questionId := 1;
      ghost var start := questions;
      ghost var st := Start;
      for i := 0 to |lines|
        invariant st == RunWith(lines[..i], headerName, NewQuestion)
        invariant st == ParseState(currentCategory, currentSection, questionId, st.parsed)
        invariant questions == start + st.parsed
      {
        assert lines[..i + 1][..i] == lines[..i];
        var trimmedLine := Trim(lines[i]);
        if IsHeader(trimmedLine) {
          currentCategory := headerName(trimmedLine);
          currentSection := currentCategory;
        }
        var question := QuestionText(trimmedLine);
        ghost var next := st.parsed;
        if question.Some? && |question.value| >= 10 {
          var testQuestion := NewQuestion(questionId, currentCategory, currentSection, question.value);
          questionId := questionId + 1;
          AppendAssoc(start, next, [testQuestion]);
          next := next + [testQuestion];
          questions := questions + [testQuestion];
        }
        st := StepWith(st, HeaderOf(trimmedLine, headerName), question, NewQuestion);
        assert st.parsed == next;
      }
      assert lines[..|lines|] == lines;
      r := questions;
    }

    function GetQuestions(): seq<TestQuestion>
      reads this
    {
      questions
    }

    /** `getQuestionsByCategory`: the stored questions of that category, in
        stored order. */
    function GetQuestionsByCategory(category: string): (r: seq<TestQuestion>)
      reads this
      ensures forall q :: q in r <==> q in questions && q.category == category
    {
      Filter(questions, (q: TestQuestion) => q.category == category)
    }

    /** `getTotalCount`. */
    function GetTotalCount(): (n: nat)
      reads this
      ensures n == |GetQuestions()|
    {
      |questions|
    }
  }

  /** Parsing more appends to each category's list: the questions of a
      category after a second parse are those before, then the new ones of
      that category in line order. */
  lemma ByCategoryAppend(before: seq<TestQuestion>, added: seq<TestQuestion>, category: string)
    ensures Filter(before + added, (q: TestQuestion) => q.category == category)
            == Filter(before, (q: TestQuestion) => q.category == category)
               + Filter(added, (q: TestQuestion) => q.category == category)
  {
    FilterAppend(before, added, (q: TestQuestion) => q.category == category);
  }
}
