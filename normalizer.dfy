/** Text normalisation and keyword extraction of the query preprocessor
    (lib/query-preprocessor.ts, normalizeText and extractKeywords). */
module QueryNormalizer {
  import opened Text

  // ---------------------------------------------------------------------
  // The normalisation pipeline
  // ---------------------------------------------------------------------

  /** The combining diacritical marks, U+0300..U+036F. */
  predicate IsCombiningMark(c: char) { '\U{300}' <= c <= '\U{36F}' }

  /** Canonical decomposition (NFD) of one character. The accented small
      letters of Latin-1 decompose into an ASCII base letter followed by one
      combining mark; every other character is its own decomposition. */
  function Decompose(c: char): (r: seq<char>)
    ensures r == [c] || (|r| == 2 && 'a' <= r[0] <= 'z' && IsCombiningMark(r[1]))
    ensures c < '\U{80}' ==> r == [c]
  {
    match c
    case 'à' => ['a', '\U{300}'] case 'á' => ['a', '\U{301}'] case 'â' => ['a', '\U{302}']
    case 'ã' => ['a', '\U{303}'] case 'ä' => ['a', '\U{308}'] case 'å' => ['a', '\U{30A}']
    case 'ç' => ['c', '\U{327}']
    case 'è' => ['e', '\U{300}'] case 'é' => ['e', '\U{301}'] case 'ê' => ['e', '\U{302}']
    case 'ë' => ['e', '\U{308}']
    case 'ì' => ['i', '\U{300}'] case 'í' => ['i', '\U{301}'] case 'î' => ['i', '\U{302}']
    case 'ï' => ['i', '\U{308}']
    case 'ñ' => ['n', '\U{303}']
    case 'ò' => ['o', '\U{300}'] case 'ó' => ['o', '\U{301}'] case 'ô' => ['o', '\U{302}']
    case 'õ' => ['o', '\U{303}'] case 'ö' => ['o', '\U{308}']
    case 'ù' => ['u', '\U{300}'] case 'ú' => ['u', '\U{301}'] case 'û' => ['u', '\U{302}']
    case 'ü' => ['u', '\U{308}']
    case 'ý' => ['y', '\U{301}'] case 'ÿ' => ['y', '\U{308}']
    case _ => [c]
  }

  /** `normalize('NFD')`, character by character. */
  function Nfd(s: string): (r: string)
    ensures forall x :: x in r ==> x in s || 'a' <= x <= 'z' || IsCombiningMark(x)
  {
    if s == [] then [] else Decompose(s[0]) + Nfd(s[1..])
  }

  lemma {:induction false} NfdAppend(a: string, b: string)
    ensures Nfd(a + b) == Nfd(a) + Nfd(b)
  {
    if a != [] {
      assert (a + b)[1..] == a[1..] + b;
      NfdAppend(a[1..], b);
    } else {
      assert a + b == b;
    }
  }

  predicate NotMark(c: char) { !IsCombiningMark(c) }

  /** `replace(/[\u0300-\u036f]/g, '')`. */
  function StripMarks(s: string): string {
    Filter(s, NotMark)
  }

  /** Lower-cased, decomposed and stripped of its accents. */
  function Folded(text: string): (r: string)
    ensures forall x :: x in r ==> !IsAsciiUpper(x)
  {
    StripMarks(Nfd(Lower(text)))
  }

  /** `replace(/[^\w\s]/g, ' ')`. */
  function PunctuationToSpace(s: string): (r: string)
    ensures |r| == |s|
    ensures forall i :: 0 <= i < |s| ==> r[i] == if IsWordChar(s[i]) || IsSpace(s[i]) then s[i] else ' '
  {
    seq(|s|, i requires 0 <= i < |s| => if IsWordChar(s[i]) || IsSpace(s[i]) then s[i] else ' ')
  }

  /** `replace(/\s+/g, ' ')`: every maximal run of whitespace becomes one
      space. */
  function Collapse(s: string): string
    decreases |s|
  {
    if s == [] then []
    else if IsSpace(s[0]) then [' '] + Collapse(TrimStart(s[1..]))
    else [s[0]] + Collapse(s[1..])
  }

  /** Collapsing keeps the non-space characters, turns whitespace into single
      spaces, never leaves two spaces side by side, and starts with a space
      exactly when the text starts with whitespace. */
  lemma {:induction false} CollapseShape(s: string)
    ensures var r := Collapse(s);
      && (forall i :: 0 <= i < |r| ==> r[i] == ' ' || (r[i] in s && !IsSpace(r[i])))
      && NoDoubleSpace(r)
      && (r != [] ==> s != [] && (r[0] == ' ' <==> IsSpace(s[0])))
    decreases |s|
  {
    if s != [] {
      var r := Collapse(s);
      if IsSpace(s[0]) {
        var t := TrimStart(s[1..]);
        TrimStartSuffix(s[1..]);
        CollapseShape(t);
        var rest := Collapse(t);
        ConsNoDoubleSpace(' ', rest);
        forall i | 0 <= i < |r| ensures r[i] == ' ' || (r[i] in s && !IsSpace(r[i])) {
          if i > 0 && r[i] != ' ' {
            assert r[i] == rest[i - 1];
            assert r[i] in t;
            var j :| 0 <= j < |t| && t[j] == r[i];
            assert t[j] == s[1..][|s[1..]| - |t| + j];
          }
        }
      } else {
        CollapseShape(s[1..]);
        var rest := Collapse(s[1..]);
        ConsNoDoubleSpace(s[0], rest);
        forall i | 0 <= i < |r| ensures r[i] == ' ' || (r[i] in s && !IsSpace(r[i])) {
          if i > 0 {
            assert r[i] == rest[i - 1];
          }
        }
      }
    }
  }


  predicate NoDoubleSpace(s: string) {
    forall i :: 0 <= i < |s| - 1 ==> !DoubleSpaceAt(s, i)
  }

  /** Prepending a character keeps single spacing unless it puts a space
      before a space. */
  lemma ConsNoDoubleSpace(x: char, s: string)
    requires NoDoubleSpace(s)
    requires x == ' ' ==> s == [] || s[0] != ' '
    ensures NoDoubleSpace([x] + s)
  {
    var r := [x] + s;
    forall i | 0 <= i < |r| - 1 ensures !DoubleSpaceAt(r, i) {
      if i > 0 {
        assert r[i] == s[i - 1] && r[i + 1] == s[i];
        assert !DoubleSpaceAt(s, i - 1);
      }
    }
  }

  /** A slice of a single-spaced text is single-spaced. */
  lemma SliceNoDoubleSpace(s: string, a: int, b: int)
    requires NoDoubleSpace(s)
    requires 0 <= a <= b <= |s|
    ensures NoDoubleSpace(s[a..b])
  {
    var r := s[a..b];
    forall i | 0 <= i < |r| - 1 ensures !DoubleSpaceAt(r, i) {
      assert r[i] == s[a + i] && r[i + 1] == s[a + i + 1];
      assert !DoubleSpaceAt(s, a + i);
    }
  }

  /** Positions i and i + 1 both hold a space. */
  predicate DoubleSpaceAt(s: string, i: int)
    requires 0 <= i < |s| - 1
  {
    s[i] == ' ' && s[i + 1] == ' '
  }

  /** The characters a normalised text is made of. */
  predicate IsNormChar(c: char) {
    ('a' <= c <= 'z') || ('0' <= c <= '9') || c == '_' || c == ' '
  }

  /** Small ASCII letters, digits and `_`, words separated by single spaces,
      no space at either end. */
  predicate NormalForm(s: string) {
    && (forall i :: 0 <= i < |s| ==> IsNormChar(s[i]))
    && (s != [] ==> s[0] != ' ' && s[|s| - 1] != ' ')
    && NoDoubleSpace(s)
  }

  /** `normalizeText`: lower-case, decompose, strip accents, punctuation to
      space, collapse whitespace, trim. */
  function NormalizeText(text: string): string {
    Trim(Collapse(PunctuationToSpace(Folded(text))))
  }

  /** The output of `normalizeText` is in normal form. */
  lemma NormalizeTextForm(text: string)
    ensures NormalForm(NormalizeText(text))
  {
    var stripped := Folded(text);
    var spaced := PunctuationToSpace(stripped);
    var collapsed := Collapse(spaced);
    CollapsedForm(stripped, spaced, collapsed);
    CollapseShape(spaced);
    TrimKeepsForm(collapsed);
  }

  /** What `Collapse` leaves of a punctuation-free, lower-cased text. */
  lemma CollapsedForm(stripped: string, spaced: string, collapsed: string)
    requires forall x :: x in stripped ==> !IsAsciiUpper(x)
    requires spaced == PunctuationToSpace(stripped)
    requires collapsed == Collapse(spaced)
    ensures forall i :: 0 <= i < |collapsed| ==> IsNormChar(collapsed[i])
  {
    CollapseShape(spaced);
    forall i | 0 <= i < |collapsed| ensures IsNormChar(collapsed[i]) {
      if collapsed[i] != ' ' {
        var j :| 0 <= j < |spaced| && spaced[j] == collapsed[i];
        assert stripped[j] in stripped;
      }
    }
  }

  lemma TrimKeepsForm(s: string)
    requires forall i :: 0 <= i < |s| ==> IsNormChar(s[i])
    requires NoDoubleSpace(s)
    ensures NormalForm(Trim(s))
  {
    TrimShape(s);
    var t := TrimStart(s);
    var r := TrimEnd(t);
    TrimStartSuffix(s);
    TrimEndPrefix(t);
    var a := |s| - |t|;
    assert r == s[a..a + |r|];
    SliceNoDoubleSpace(s, a, a + |r|);
    forall i | 0 <= i < |r| ensures IsNormChar(r[i]) {
      assert r[i] == s[a + i];
    }
  }

  // ---------------------------------------------------------------------
  // Properties of normalisation
  // ---------------------------------------------------------------------

  lemma {:induction false} CollapseNormal(s: string)
    requires forall i :: 0 <= i < |s| ==> IsNormChar(s[i])
    requires NoDoubleSpace(s)
    ensures Collapse(s) == s
    decreases |s|
  {
    if s != [] {
      var tl := s[1..];
      SliceNoDoubleSpace(s, 1, |s|);
      assert s[1..|s|] == tl;
      assert forall i :: 0 <= i < |tl| ==> tl[i] == s[i + 1];
      CollapseNormal(tl);
      if s[0] == ' ' {
        if tl != [] {
          assert !DoubleSpaceAt(s, 0);
          assert !IsSpace(tl[0]);
        }
        assert TrimStart(tl) == tl;
        assert Collapse(s) == [' '] + Collapse(tl);
      } else {
        assert !IsSpace(s[0]);
        assert Collapse(s) == [s[0]] + Collapse(tl);
      }
      assert s == [s[0]] + tl;
    }
  }

  lemma {:induction false} NfdAscii(s: string)
    requires forall i :: 0 <= i < |s| ==> s[i] < '\U{80}'
    ensures Nfd(s) == s
  {
    if s != [] {
      NfdAscii(s[1..]);
    }
  }

  /** Normalising a normalised text changes nothing. */
  lemma NormalFormFixed(s: string)
    requires NormalForm(s)
    ensures NormalizeText(s) == s
  {
    FoldedNormal(s);
    PunctuationNormal(s);
    CollapseNormal(s);
    TrimNormal(s);
  }

  lemma PunctuationNormal(s: string)
    requires forall i :: 0 <= i < |s| ==> IsNormChar(s[i])
    ensures PunctuationToSpace(s) == s
  {
  }

  lemma TrimNormal(s: string)
    requires NormalForm(s)
    ensures Trim(s) == s
  {
    assert s != [] ==> !IsSpace(s[0]) && !IsSpace(s[|s| - 1]);
    assert TrimStart(s) == s;
    assert TrimEnd(s) == s;
  }

  lemma FoldedNormal(s: string)
    requires forall i :: 0 <= i < |s| ==> IsNormChar(s[i])
    ensures Folded(s) == s
  {
    assert Lower(s) == s;
    NfdAscii(s);
    FilterAll(s, NotMark);
  }

  /** `normalizeText` is idempotent. */
  lemma NormalizeIdempotent(text: string)
    ensures NormalizeText(NormalizeText(text)) == NormalizeText(text)
  {
    NormalizeTextForm(text);
    NormalFormFixed(NormalizeText(text));
  }

  /** Case does not matter: lower-casing first gives the same text. */
  lemma NormalizeIgnoresCase(text: string)
    ensures NormalizeText(Lower(text)) == NormalizeText(text)
  {
    LowerIdempotent(text);
  }

  /** Accents do not matter: a letter whose small form decomposes into a base
      letter and a mark normalises like the base letter. */
  lemma NormalizeIgnoresAccent(x: string, y: string, c: char)
    requires |Decompose(LowerChar(c))| == 2
    ensures NormalizeText(x + [c] + y) == NormalizeText(x + [Decompose(LowerChar(c))[0]] + y)
  {
    FoldedIgnoresAccent(x, y, c);
  }

  lemma FoldedIgnoresAccent(x: string, y: string, c: char)
    requires |Decompose(LowerChar(c))| == 2
    ensures Folded(x + [c] + y) == Folded(x + [Decompose(LowerChar(c))[0]] + y)
  {
    var d := Decompose(LowerChar(c));
    var b := d[0];
    var lx, ly := Lower(x), Lower(y);
    assert Lower(x + [c] + y) == lx + [LowerChar(c)] + ly;
    assert Lower(x + [b] + y) == lx + [b] + ly;
    assert Nfd([LowerChar(c)]) == d;
    AccentStripped(lx, LowerChar(c), d, ly);
  }

  /** A character that decomposes into a small letter and a mark leaves
      just the letter once the marks are stripped. */
  lemma AccentStripped(a: string, ch: char, d: string, b: string)
    requires Nfd([ch]) == d && |d| == 2 && 'a' <= d[0] <= 'z' && IsCombiningMark(d[1])
    ensures StripMarks(Nfd(a + [ch] + b)) == StripMarks(Nfd(a + [d[0]] + b))
  {
    FoldedMiddle(a, ch, b);
    FoldedMiddle(a, d[0], b);
    LetterStripped(d[0]);
    PairStripped(d);
  }

  lemma LetterStripped(l: char)
    requires 'a' <= l <= 'z'
    ensures StripMarks(Nfd([l])) == [l]
  {
    assert Nfd([l]) == [l];
  }

  lemma PairStripped(d: string)
    requires |d| == 2 && 'a' <= d[0] <= 'z' && IsCombiningMark(d[1])
    ensures StripMarks(d) == [d[0]]
  {
    var first := d[..1];
    assert first == [d[0]] && first[..0] == [];
    assert NotMark(d[0]) && !NotMark(d[1]);
    assert Filter(first, NotMark) == [d[0]];
    assert d[..|d| - 1] == first;
  }

  /** Decomposing and stripping marks work character by character. */
  lemma FoldedMiddle(a: string, ch: char, b: string)
    ensures StripMarks(Nfd(a + [ch] + b)) == StripMarks(Nfd(a)) + StripMarks(Nfd([ch])) + StripMarks(Nfd(b))
  {
    NfdAppend(a + [ch], b);
    NfdAppend(a, [ch]);
    var na, nc, nb := Nfd(a), Nfd([ch]), Nfd(b);
    FilterAppend(na + nc, nb, NotMark);
    FilterAppend(na, nc, NotMark);
  }

  // ---------------------------------------------------------------------
  // Keyword extraction
  // ---------------------------------------------------------------------

  /** The pieces of `text` split at single spaces that are longer than
      two characters, in order. */
  function LongWords(text: string): seq<string> {
    Filter(Split(text, ' '), LongWord)
  }

  predicate LongWord(w: string) { |w| > 2 }

  /** The words of the normalised query. */
  function Words(query: string): seq<string> {
    LongWords(NormalizeText(query))
  }

  /** Adjacent pairs of words, joined by one space. */
  function Bigrams(words: seq<string>): (r: seq<string>)
    ensures |r| == if |words| > 0 then |words| - 1 else 0
  {
    seq(if |words| > 0 then |words| - 1 else 0,
        i requires 0 <= i < |words| - 1 => words[i] + " " + words[i + 1])
  }

  /** What `extractKeywords` returns: the words, then the bigrams. */
  function Keywords(query: string): seq<string> {
    Words(query) + Bigrams(Words(query))
  }

  /** The bigram loop of `extractKeywords`. */
  method CollectBigrams(words: seq<string>) returns (bigrams: seq<string>)
    ensures bigrams == Bigrams(words)
  {
    bigrams := [];
    var i := 0;
    while i < |words| - 1
      invariant 0 <= i <= MaxInt(|words| - 1, 0)
      invariant bigrams == Bigrams(words)[..i]
    {
      bigrams := bigrams + [words[i] + " " + words[i + 1]];
      i := i + 1;
    }
  }

  /** `extractKeywords`: the words of the normalised query, then their
      bigrams. */
  method ExtractKeywords(query: string) returns (keywords: seq<string>)
    ensures keywords == Keywords(query)
    ensures |keywords| == |Words(query)| + MaxInt(|Words(query)| - 1, 0)
  {
    var words := Words(query);
    var bigrams := CollectBigrams(words);
    keywords := words + bigrams;
  }

  /** Every long word is a space-free piece of more than two characters. */
  lemma LongWordsShape(text: string)
    ensures forall w :: w in LongWords(text) ==> |w| > 2 && ' ' !in w
  {
    var pieces := Split(text, ' ');
    forall w | w in LongWords(text) ensures |w| > 2 && ' ' !in w {
      var j :| 0 <= j < |pieces| && pieces[j] == w;
    }
  }

  /** The words of a query are made of small letters, digits and `_`. */
  lemma WordsAreNormal(query: string, w: string)
    requires w in Words(query)
    ensures forall i :: 0 <= i < |w| ==> IsNormChar(w[i])
  {
    NormalizeTextForm(query);
    LongWordsNormal(NormalizeText(query), w);
  }

  lemma LongWordsNormal(text: string, w: string)
    requires forall i :: 0 <= i < |text| ==> IsNormChar(text[i])
    requires w in LongWords(text)
    ensures forall i :: 0 <= i < |w| ==> IsNormChar(w[i])
  {
    var pieces := Split(text, ' ');
    SplitChars(text, ' ');
    var j :| 0 <= j < |pieces| && pieces[j] == w;
    forall i | 0 <= i < |w| ensures IsNormChar(w[i]) {
      assert pieces[j][i] in text;
    }
  }

  /** Bigram i of a word list joins words i and i + 1. */
  lemma BigramsShape(ws: seq<string>)
    ensures var k := ws + Bigrams(ws);
      && |k| == |ws| + MaxInt(|ws| - 1, 0)
      && k[..|ws|] == ws
      && (forall i :: 0 <= i < |ws| - 1 ==> k[|ws| + i] == k[i] + " " + k[i + 1])
  {
  }

  /** The shape of the keyword list: n words of more than two characters
      without spaces, then exactly max(n - 1, 0) bigrams, bigram i joining
      words i and i + 1 of the filtered list. */
  lemma KeywordsShape(query: string)
    ensures var n := |Words(query)|; var k := Keywords(query);
      && |k| == n + MaxInt(n - 1, 0)
      && k[..n] == Words(query)
      && (forall i :: 0 <= i < n ==> |k[i]| > 2 && ' ' !in k[i])
      && (forall i :: 0 <= i < n - 1 ==> k[n + i] == k[i] + " " + k[i + 1])
  {
    var ws := Words(query);
    LongWordsShape(NormalizeText(query));
    BigramsShape(ws);
    forall i | 0 <= i < |ws| ensures |ws[i]| > 2 && ' ' !in ws[i] {
      assert ws[i] in LongWords(NormalizeText(query));
    }
  }

  /** Extraction only sees the normalised text, so a query and its
      normalisation (the cache key) have the same keywords. */
  lemma KeywordsOfNormalized(query: string)
    ensures Keywords(NormalizeText(query)) == Keywords(query)
  {
    NormalizeIdempotent(query);
  }
}
