/** Character classes and sequence helpers shared by the classifier and the
    evaluation scripts: the JavaScript string operations they rely on
    (`\w`, `\s`, `toLowerCase`, `includes`, `trim`, `split`, `join`,
    `new Set`, a stable `sort`), written out over `seq<char>`. */
module Text {

  datatype Option<+T> = None | Some(value: T)

  // ---------------------------------------------------------------------
  // Character classes
  // ---------------------------------------------------------------------

  /** JavaScript's `\w` without the `u` flag: ASCII letters, digits, `_`. */
  predicate IsWordChar(c: char) {
    ('a' <= c <= 'z') || ('A' <= c <= 'Z') || ('0' <= c <= '9') || c == '_'
  }

  /** JavaScript's `\s` (and the set `trim` removes): the ECMAScript
      WhiteSpace and LineTerminator code points. */
  predicate IsSpace(c: char) {
    c == ' ' || c == '\t' || c == '\n' || c == '\r' || c == '\U{B}' || c == '\U{C}'
    || c == '\U{A0}' || c == '\U{1680}' || ('\U{2000}' <= c <= '\U{200A}')
    || c == '\U{2028}' || c == '\U{2029}' || c == '\U{202F}' || c == '\U{205F}'
    || c == '\U{3000}' || c == '\U{FEFF}'
  }

  predicate IsAsciiUpper(c: char) { 'A' <= c <= 'Z' }

  /** Capital letters of the Latin-1 block (À..Þ without ×). */
  predicate IsLatin1Upper(c: char) { '\U{C0}' <= c <= '\U{DE}' && c != '\U{D7}' }

  /** `toLowerCase` on one character: ASCII and Latin-1 capitals map to their
      small letters (code point + 32); every other character is unchanged. */
  function LowerChar(c: char): (r: char)
    ensures !IsAsciiUpper(r) && !IsLatin1Upper(r)
    ensures !IsAsciiUpper(c) && !IsLatin1Upper(c) ==> r == c
  {
    if IsAsciiUpper(c) || IsLatin1Upper(c) then (c as int + 32) as char else c
  }

  /** `String.prototype.toLowerCase`, character by character. */
  function Lower(s: string): (r: string)
    ensures |r| == |s|
    ensures forall i :: 0 <= i < |s| ==> r[i] == LowerChar(s[i])
  {
    seq(|s|, i requires 0 <= i < |s| => LowerChar(s[i]))
  }

  lemma LowerIdempotent(s: string)
    ensures Lower(Lower(s)) == Lower(s)
  {
  }

  lemma LowerAppend(a: string, b: string)
    ensures Lower(a + b) == Lower(a) + Lower(b)
  {
    assert Lower(a + b) == Lower(a) + Lower(b);
  }

  // ---------------------------------------------------------------------
  // Substrings
  // ---------------------------------------------------------------------

  predicate StartsWith(s: string, p: string) {
    |p| <= |s| && s[..|p|] == p
  }

  /** `s.includes(sub)`. */
  predicate Contains(s: string, sub: string)
    decreases |s|
  {
    StartsWith(s, sub) || (s != [] && Contains(s[1..], sub))
  }

  lemma {:induction false} ContainsAt(s: string, sub: string, i: nat)
    requires i + |sub| <= |s| && s[i..i + |sub|] == sub
    ensures Contains(s, sub)
    decreases i
  {
    if i > 0 {
      assert s[1..][i - 1..i - 1 + |sub|] == s[i..i + |sub|];
      ContainsAt(s[1..], sub, i - 1);
    }
  }

  lemma {:induction false} ContainsShorter(s: string, sub: string)
    requires Contains(s, sub)
    ensures |sub| <= |s|
    decreases |s|
  {
    if !StartsWith(s, sub) {
      ContainsShorter(s[1..], sub);
    }
  }

  /** A string contains every character of each string it contains. */
  lemma {:induction false} ContainsChars(s: string, sub: string)
    ensures Contains(s, sub) ==> forall c :: c in sub ==> c in s
    decreases |s|
  {
    if StartsWith(s, sub) {
      assert forall c :: c in sub ==> c in s[..|sub|];
    } else if s != [] {
      ContainsChars(s[1..], sub);
      assert forall c :: c in s[1..] ==> c in s;
    }
  }

  lemma ContainsMiddle(a: string, sub: string, b: string)
    ensures Contains(a + sub + b, sub)
  {
    assert (a + sub + b)[|a|..|a| + |sub|] == sub;
    ContainsAt(a + sub + b, sub, |a|);
  }

  /** A string lacking a character of `sub` does not contain `sub`. */
  lemma LacksCharNotContains(s: string, sub: string, c: char)
    requires c in sub && c !in s
    ensures !Contains(s, sub)
  {
    ContainsChars(s, sub);
  }

  /** A string contains a string of its own length only if they are equal. */
  lemma ContainsSameLength(s: string, sub: string)
    requires Contains(s, sub) && |s| == |sub|
    ensures s == sub
  {
    if !StartsWith(s, sub) {
      ContainsShorter(s[1..], sub);
    }
  }

  // ---------------------------------------------------------------------
  // Trimming, splitting, joining
  // ---------------------------------------------------------------------

  /** Drops leading whitespace (`trimStart`). */
  function TrimStart(s: string): (r: string)
    ensures |r| <= |s|
    ensures r != [] ==> !IsSpace(r[0])
    ensures forall i :: 0 <= i < |s| - |r| ==> IsSpace(s[i])
  {
    if s != [] && IsSpace(s[0]) then TrimStart(s[1..]) else s
  }

  /** What `trimStart` keeps is a suffix. */
  lemma {:induction false} TrimStartSuffix(s: string)
    ensures TrimStart(s) == s[|s| - |TrimStart(s)|..]
  {
    if s != [] && IsSpace(s[0]) {
      TrimStartSuffix(s[1..]);
    }
  }

  /** Drops trailing whitespace (`trimEnd`). */
  function TrimEnd(s: string): (r: string)
    ensures |r| <= |s|
    ensures r != [] ==> !IsSpace(r[|r| - 1])
    ensures forall i :: |r| <= i < |s| ==> IsSpace(s[i])
  {
    if s != [] && IsSpace(s[|s| - 1]) then TrimEnd(s[..|s| - 1]) else s
  }

  /** What `trimEnd` keeps is a prefix. */
  lemma {:induction false} TrimEndPrefix(s: string)
    ensures TrimEnd(s) == s[..|TrimEnd(s)|]
  {
    if s != [] && IsSpace(s[|s| - 1]) {
      TrimEndPrefix(s[..|s| - 1]);
    }
  }

  /** `String.prototype.trim`. */
  function Trim(s: string): string {
    TrimEnd(TrimStart(s))
  }

  /** The trimmed text neither starts nor ends with whitespace, and it is
      empty exactly when the text is all whitespace. */
  lemma TrimShape(s: string)
    ensures var r := Trim(s);
      && (r != [] ==> !IsSpace(r[0]) && !IsSpace(r[|r| - 1]))
      && (r == [] <==> forall i :: 0 <= i < |s| ==> IsSpace(s[i]))
  {
    var t := TrimStart(s);
    var r := TrimEnd(t);
    TrimStartSuffix(s);
    TrimEndPrefix(t);
    assert r == [] ==> t == [];
    assert r != [] ==> r[0] == t[0] == s[|s| - |t|];
  }

  /** `s.split(sep)` for a one-character separator: every piece between two
      separators, empty pieces included, so the result is never empty. */
  function Split(s: string, sep: char): (r: seq<string>)
    ensures |r| >= 1
    ensures forall k :: 0 <= k < |r| ==> sep !in r[k]
  {
    if s == [] then [[]]
    else
      var rest := Split(s[1..], sep);
      if s[0] == sep then [[]] + rest
      else [[s[0]] + rest[0]] + rest[1..]
  }

  predicate PiecesOf(pieces: seq<string>, s: string) {
    forall k, i :: 0 <= k < |pieces| && 0 <= i < |pieces[k]| ==> pieces[k][i] in s
  }

  /** Every character of a piece comes from the string. */
  lemma {:induction false} SplitChars(s: string, sep: char)
    ensures PiecesOf(Split(s, sep), s)
  {
    if s != [] {
      SplitChars(s[1..], sep);
      var r, rest := Split(s, sep), Split(s[1..], sep);
      forall k, i | 0 <= k < |r| && 0 <= i < |r[k]| ensures r[k][i] in s {
        if s[0] == sep {
          assert r[k] == rest[k - 1];
          assert rest[k - 1][i] in s[1..] by { assert PiecesOf(rest, s[1..]); }
        } else if k == 0 {
          if i > 0 {
            assert r[0][i] == rest[0][i - 1];
            assert rest[0][i - 1] in s[1..] by { assert PiecesOf(rest, s[1..]); }
          }
        } else {
          assert r[k] == rest[k];
          assert rest[k][i] in s[1..] by { assert PiecesOf(rest, s[1..]); }
        }
      }
    }
  }

  /** `s.split(sep)` for a non-empty string separator. */
  function SplitOn(s: string, sep: string): (r: seq<string>)
    requires |sep| > 0
    ensures |r| >= 1
    decreases |s|
  {
    if |s| < |sep| then [s]
    else if s[..|sep|] == sep then [[]] + SplitOn(s[|sep|..], sep)
    else
      var rest := SplitOn(s[1..], sep);
      [[s[0]] + rest[0]] + rest[1..]
  }

  /** `ws.join(sep)`. */
  function Join(ws: seq<string>, sep: string): string {
    if ws == [] then []
    else if |ws| == 1 then ws[0]
    else ws[0] + sep + Join(ws[1..], sep)
  }

  /** Joining the pieces of a split with the separator gives the string back. */
  lemma {:induction false} SplitJoin(s: string, sep: char)
    ensures Join(Split(s, sep), [sep]) == s
  {
    if s != [] {
      SplitJoin(s[1..], sep);
      var rest := Split(s[1..], sep);
      if s[0] != sep {
        if |rest| == 1 {
          assert Split(s, sep) == [[s[0]] + rest[0]];
        } else {
          assert Split(s, sep)[1..] == rest[1..];
        }
      }
    }
  }

  // ---------------------------------------------------------------------
  // Sequences
  // ---------------------------------------------------------------------

  /** `xs.filter(p)`. */
  function Filter<T(!new)>(xs: seq<T>, p: T -> bool): (r: seq<T>)
    ensures |r| <= |xs|
    ensures forall x :: x in r <==> x in xs && p(x)
  {
    if xs == [] then []
    else
      var init := Filter(xs[..|xs| - 1], p);
      assert forall x :: x in xs <==> x in xs[..|xs| - 1] || x == xs[|xs| - 1];
      if p(xs[|xs| - 1]) then init + [xs[|xs| - 1]] else init
  }

  /** Concatenation regroups; stated once so that large contexts need not
      rediscover it. */
  lemma AppendAssoc<T>(a: seq<T>, b: seq<T>, c: seq<T>)
    ensures (a + b) + c == a + (b + c)
  {
  }

  /** A prefix of a prefix is a prefix. */
  lemma PrefixTrans<T>(a: seq<T>, b: seq<T>, c: seq<T>)
    requires |a| <= |b| <= |c| && b[..|a|] == a && c[..|b|] == b
    ensures c[..|a|] == a
  {
    assert c[..|a|] == c[..|b|][..|a|];
  }

  lemma FilterAppend<T(!new)>(xs: seq<T>, ys: seq<T>, p: T -> bool)
    ensures Filter(xs + ys, p) == Filter(xs, p) + Filter(ys, p)
    decreases |ys|
  {
    if ys != [] {
      assert (xs + ys)[..|xs + ys| - 1] == xs + ys[..|ys| - 1];
      FilterAppend(xs, ys[..|ys| - 1], p);
    } else {
      assert xs + ys == xs;
    }
  }

  lemma {:induction false} FilterAll<T(!new)>(xs: seq<T>, p: T -> bool)
    requires forall i :: 0 <= i < |xs| ==> p(xs[i])
    ensures Filter(xs, p) == xs
  {
    if xs != [] {
      var init := xs[..|xs| - 1];
      assert forall i :: 0 <= i < |init| ==> init[i] == xs[i];
      FilterAll(init, p);
      assert init + [xs[|xs| - 1]] == xs;
    }
  }

  /** Two passing positions give two passing elements. */
  lemma FilterTwoFromPositions<T(!new)>(xs: seq<T>, p: T -> bool, i: nat, j: nat)
    requires i < j < |xs| && p(xs[i]) && p(xs[j])
    ensures |Filter(xs, p)| >= 2
  {
    FilterAppend(xs[..j], xs[j..], p);
    assert xs[..j] + xs[j..] == xs;
    assert xs[i] in xs[..j] && xs[j] in xs[j..];
    assert Filter(xs[..j], p) != [] && Filter(xs[j..], p) != [];
  }

  /** Two passing elements come from two passing positions. */
  lemma {:induction false} FilterTwoPositions<T(!new)>(xs: seq<T>, p: T -> bool)
    requires |Filter(xs, p)| >= 2
    ensures exists i, j :: 0 <= i < j < |xs| && p(xs[i]) && p(xs[j])
  {
    var n := |xs|;
    var init := xs[..n - 1];
    var fi := Filter(init, p);
    if |fi| >= 2 {
      FilterTwoPositions(init, p);
      var i, j :| 0 <= i < j < |init| && p(init[i]) && p(init[j]);
      assert init[i] == xs[i] && init[j] == xs[j];
    } else {
      assert p(xs[n - 1]) && fi != [];
      assert fi[0] in fi;
      var i :| 0 <= i < |init| && init[i] == fi[0];
      assert xs[i] == init[i];
    }
  }

  /** At least two elements pass the filter exactly when two different
      positions hold elements that pass. */
  lemma FilterAtLeastTwo<T(!new)>(xs: seq<T>, p: T -> bool)
    ensures |Filter(xs, p)| >= 2 <==> exists i, j :: 0 <= i < j < |xs| && p(xs[i]) && p(xs[j])
  {
    if |Filter(xs, p)| >= 2 {
      FilterTwoPositions(xs, p);
    }
    if exists i, j :: 0 <= i < j < |xs| && p(xs[i]) && p(xs[j]) {
      var i, j :| 0 <= i < j < |xs| && p(xs[i]) && p(xs[j]);
      FilterTwoFromPositions(xs, p, i, j);
    }
  }


  predicate NoDuplicates<T(==)>(xs: seq<T>) {
    forall i, j :: 0 <= i < j < |xs| ==> xs[i] != xs[j]
  }

  /** `Array.from(new Set(xs))`: the distinct elements in order of first
      occurrence. */
  function Dedup<T(==,!new)>(xs: seq<T>): (r: seq<T>)
    ensures NoDuplicates(r)
    ensures forall x :: x in r <==> x in xs
    ensures |r| <= |xs|
  {
    if xs == [] then []
    else
      var d := Dedup(xs[..|xs| - 1]);
      assert forall x :: x in xs <==> x in xs[..|xs| - 1] || x == xs[|xs| - 1];
      if xs[|xs| - 1] in d then d else d + [xs[|xs| - 1]]
  }

  /** Deduplication keeps the first occurrence: the prefix of the result is
      the deduplicated prefix of the input. */
  lemma {:induction false} DedupPrefix<T(!new)>(xs: seq<T>, ys: seq<T>)
    ensures |Dedup(xs)| <= |Dedup(xs + ys)|
    ensures Dedup(xs + ys)[..|Dedup(xs)|] == Dedup(xs)
    decreases |ys|
  {
    if ys == [] {
      assert xs + ys == xs;
    } else {
      var zs := xs + ys;
      assert zs[..|zs| - 1] == xs + ys[..|ys| - 1];
      DedupPrefix(xs, ys[..|ys| - 1]);
    }
  }

  /** For three parts in a row, the deduplicated first part and the
      deduplicated first two parts both begin the deduplicated whole. */
  lemma DedupPrefixes<T(!new)>(a: seq<T>, b: seq<T>, c: seq<T>)
    ensures |Dedup(a)| <= |Dedup(a + b)| <= |Dedup(a + b + c)|
    ensures Dedup(a + b + c)[..|Dedup(a + b)|] == Dedup(a + b)
    ensures Dedup(a + b + c)[..|Dedup(a)|] == Dedup(a)
  {
    DedupPrefix(a + b, c);
    DedupPrefix(a, b);
    var whole, d1 := Dedup(a + b + c), Dedup(a + b);
    assert whole[..|Dedup(a)|] == whole[..|d1|][..|Dedup(a)|];
  }

  /** A sequence without repetitions is its own deduplication. */
  lemma {:induction false} DedupDistinct<T(!new)>(xs: seq<T>)
    requires NoDuplicates(xs)
    ensures Dedup(xs) == xs
  {
    if xs != [] {
      var init := xs[..|xs| - 1];
      assert NoDuplicates(init);
      DedupDistinct(init);
      assert xs[|xs| - 1] !in init;
      assert init + [xs[|xs| - 1]] == xs;
    }
  }

  lemma TwiceCounted<T>(s: seq<T>, i: nat, j: nat)
    requires i < j < |s|
    ensures s[i] == s[j] ==> multiset(s)[s[i]] >= 2
  {
    assert s == s[..j] + s[j..];
    assert s[i] in s[..j];
    assert s[j..][0] == s[j];
  }

  lemma {:induction false} DistinctCount<T>(s: seq<T>, x: T)
    requires NoDuplicates(s)
    ensures multiset(s)[x] <= 1
  {
    if s != [] {
      var init := s[..|s| - 1];
      assert s == init + [s[|s| - 1]];
      assert NoDuplicates(init);
      DistinctCount(init, x);
      assert s[|s| - 1] !in init;
    }
  }

  /** A permutation of a sequence without repetitions has none either. */
  lemma PermutedDistinct<T>(a: seq<T>, b: seq<T>)
    requires multiset(a) == multiset(b) && NoDuplicates(a)
    ensures NoDuplicates(b)
  {
    forall i, j | 0 <= i < j < |b| ensures b[i] != b[j] {
      TwiceCounted(b, i, j);
      DistinctCount(a, b[i]);
    }
  }

  /** The elements of a duplicate-free sequence of keys drawn from a set of
      size n are at most n. */
  lemma {:induction false} DistinctBound<T>(xs: seq<T>, ys: seq<T>)
    requires NoDuplicates(xs)
    requires forall x :: x in xs ==> x in ys
    ensures |xs| <= |ys|
  {
    var sx := set x | x in xs;
    var sy := set y | y in ys;
    assert sx <= sy;
    DistinctCard(xs);
    SeqSetCard(ys);
    SubsetCard(sx, sy);
  }

  lemma {:induction false} DistinctCard<T>(xs: seq<T>)
    requires NoDuplicates(xs)
    ensures |set x | x in xs| == |xs|
  {
    if xs != [] {
      var init := xs[..|xs| - 1];
      DistinctCard(init);
      assert (set x | x in xs) == (set x | x in init) + {xs[|xs| - 1]};
      assert xs[|xs| - 1] !in init;
    }
  }

  lemma {:induction false} SeqSetCard<T>(ys: seq<T>)
    ensures |set y | y in ys| <= |ys|
  {
    if ys != [] {
      var init := ys[..|ys| - 1];
      SeqSetCard(init);
      assert (set y | y in ys) == (set y | y in init) + {ys[|ys| - 1]};
    }
  }

  lemma SubsetCard<T>(a: set<T>, b: set<T>)
    requires a <= b
    ensures |a| <= |b|
  {
    assert b == a + (b - a);
  }

  function Take<T>(xs: seq<T>, n: nat): (r: seq<T>)
    ensures |r| == if n < |xs| then n else |xs|
    ensures r == xs[..|r|]
  {
    if n < |xs| then xs[..n] else xs
  }

  // ---------------------------------------------------------------------
  // Stable sort
  // ---------------------------------------------------------------------

  predicate SortedDesc<T>(xs: seq<T>, key: T -> real) {
    forall i, j :: 0 <= i < j < |xs| ==> key(xs[i]) >= key(xs[j])
  }

  /** Inserts x before the first element whose key is not greater than x's. */
  function InsertDesc<T(!new)>(x: T, xs: seq<T>, key: T -> real): (r: seq<T>)
    ensures |r| == |xs| + 1
    ensures forall y :: y in r <==> y == x || y in xs
    ensures multiset(r) == multiset(xs) + multiset{x}
  {
    if xs == [] then [x]
    else if key(xs[0]) <= key(x) then [x] + xs
    else
      assert xs == [xs[0]] + xs[1..];
      [xs[0]] + InsertDesc(x, xs[1..], key)
  }

  lemma {:induction false} InsertDescSorted<T(!new)>(x: T, xs: seq<T>, key: T -> real)
    requires SortedDesc(xs, key)
    ensures SortedDesc(InsertDesc(x, xs, key), key)
  {
    if xs != [] && key(xs[0]) > key(x) {
      InsertDescSorted(x, xs[1..], key);
      var t := InsertDesc(x, xs[1..], key);
      forall k | 0 <= k < |t| ensures key(xs[0]) >= key(t[k]) {
        assert t[k] in t;
        if t[k] != x {
          var j :| 0 <= j < |xs[1..]| && xs[1..][j] == t[k];
          assert xs[j + 1] == t[k];
        }
      }
    }
  }

  /** `xs.sort((a, b) => key(b) - key(a))`: a stable sort, non-increasing in
      `key`, of which the result is a permutation. */
  function SortDesc<T(!new)>(xs: seq<T>, key: T -> real): (r: seq<T>)
    ensures SortedDesc(r, key)
    ensures multiset(r) == multiset(xs)
    ensures |r| == |xs|
  {
    if xs == [] then []
    else
      assert xs == [xs[0]] + xs[1..];
      InsertDescSorted(xs[0], SortDesc(xs[1..], key), key);
      InsertDesc(xs[0], SortDesc(xs[1..], key), key)
  }

  /** The first element of the sorted list has the largest key and the
      last the smallest, and both come from the input. */
  lemma SortDescEnds<T(!new)>(xs: seq<T>, key: T -> real)
    requires xs != []
    ensures var s := SortDesc(xs, key);
      && s[0] in xs && s[|s| - 1] in xs
      && forall y :: y in xs ==> key(y) <= key(s[0]) && key(s[|s| - 1]) <= key(y)
  {
    EndsOfPermutation(xs, SortDesc(xs, key), key);
  }

  /** Position i holds the first of the largest keys. */
  predicate FirstMaxAt<T>(xs: seq<T>, key: T -> real, i: int) {
    && 0 <= i < |xs|
    && (forall j :: 0 <= j < |xs| ==> key(xs[j]) <= key(xs[i]))
    && (forall j :: 0 <= j < i ==> key(xs[j]) < key(xs[i]))
  }

  /** Position i holds the last of the smallest keys. */
  predicate LastMinAt<T>(xs: seq<T>, key: T -> real, i: int) {
    && 0 <= i < |xs|
    && (forall j :: 0 <= j < |xs| ==> key(xs[i]) <= key(xs[j]))
    && (forall j :: i < j < |xs| ==> key(xs[i]) < key(xs[j]))
  }

  /** A first largest key of the tail stays first in the whole list
      unless the head's key is at least as large, and then the head is. */
  lemma FirstMaxStep<T>(xs: seq<T>, key: T -> real, k: int)
    requires xs != [] && FirstMaxAt(xs[1..], key, k)
    ensures key(xs[k + 1]) <= key(xs[0]) ==> FirstMaxAt(xs, key, 0)
    ensures key(xs[0]) < key(xs[k + 1]) ==> FirstMaxAt(xs, key, k + 1)
  {
    var rest := xs[1..];
    assert forall j :: 0 < j < |xs| ==> xs[j] == rest[j - 1];
  }

  /** A last smallest key of the tail stays last in the whole list when the
      head's key is at least as large; otherwise the head is. */
  lemma LastMinStep<T>(xs: seq<T>, key: T -> real, k: int)
    requires xs != [] && LastMinAt(xs[1..], key, k)
    ensures key(xs[k + 1]) <= key(xs[0]) ==> LastMinAt(xs, key, k + 1)
    ensures key(xs[0]) < key(xs[k + 1]) ==> LastMinAt(xs, key, 0)
  {
    var rest := xs[1..];
    assert forall j :: 0 < j < |xs| ==> xs[j] == rest[j - 1];
  }

  /** The sort is stable at the front: its first element is the first
      element of the input with the largest key. */
  lemma {:induction false} SortDescFirst<T(!new)>(xs: seq<T>, key: T -> real)
    requires xs != []
    ensures exists i :: FirstMaxAt(xs, key, i) && SortDesc(xs, key)[0] == xs[i]
  {
    var rest := xs[1..];
    if rest == [] {
      assert FirstMaxAt(xs, key, 0);
    } else {
      var sr := SortDesc(rest, key);
      assert xs == [xs[0]] + rest;
      assert SortDesc(xs, key) == InsertDesc(xs[0], sr, key);
      SortDescFirst(rest, key);
      var k :| FirstMaxAt(rest, key, k) && sr[0] == rest[k];
      FirstMaxStep(xs, key, k);
      assert rest[k] == xs[k + 1];
      if key(sr[0]) <= key(xs[0]) {
        assert SortDesc(xs, key)[0] == xs[0];
      } else {
        assert SortDesc(xs, key)[0] == xs[k + 1];
      }
    }
  }

  /** Inserting into a sorted list puts x last exactly when every key is
      larger than x's. */
  lemma {:induction false} InsertDescLast<T(!new)>(x: T, ys: seq<T>, key: T -> real)
    requires SortedDesc(ys, key)
    ensures var r := InsertDesc(x, ys, key);
      r[|r| - 1] == if ys != [] && key(ys[|ys| - 1]) <= key(x) then ys[|ys| - 1] else x
  {
    if ys == [] {
      assert InsertDesc(x, ys, key) == [x];
    } else if key(ys[0]) <= key(x) {
      assert InsertDesc(x, ys, key) == [x] + ys;
      assert key(ys[|ys| - 1]) <= key(ys[0]);
    } else {
      var tail := ys[1..];
      assert InsertDesc(x, ys, key) == [ys[0]] + InsertDesc(x, tail, key);
      assert SortedDesc(tail, key) by {
        forall i, j | 0 <= i < j < |tail| ensures key(tail[i]) >= key(tail[j]) {
          assert tail[i] == ys[i + 1] && tail[j] == ys[j + 1];
        }
      }
      InsertDescLast(x, tail, key);
      if tail == [] {
        assert key(ys[|ys| - 1]) > key(x);
      } else {
        assert tail[|tail| - 1] == ys[|ys| - 1];
      }
    }
  }

  /** The sort is stable at the back: its last element is the last element
      of the input with the smallest key. */
  lemma {:induction false} SortDescLast<T(!new)>(xs: seq<T>, key: T -> real)
    requires xs != []
    ensures exists i :: LastMinAt(xs, key, i) && SortDesc(xs, key)[|xs| - 1] == xs[i]
  {
    var rest := xs[1..];
    if rest == [] {
      assert LastMinAt(xs, key, 0);
    } else {
      var sr := SortDesc(rest, key);
      assert xs == [xs[0]] + rest;
      assert SortDesc(xs, key) == InsertDesc(xs[0], sr, key);
      assert |sr| == |rest| == |xs| - 1;
      InsertDescLast(xs[0], sr, key);
      SortDescLast(rest, key);
      var k :| LastMinAt(rest, key, k) && sr[|rest| - 1] == rest[k];
      LastMinStep(xs, key, k);
      assert rest[k] == xs[k + 1];
    }
  }

  lemma EndsOfPermutation<T(!new)>(xs: seq<T>, s: seq<T>, key: T -> real)
    requires xs != [] && SortedDesc(s, key) && multiset(s) == multiset(xs)
    ensures |s| == |xs| && s[0] in xs && s[|s| - 1] in xs
    ensures forall y :: y in xs ==> key(y) <= key(s[0]) && key(s[|s| - 1]) <= key(y)
  {
    assert |s| == |multiset(s)| == |multiset(xs)| == |xs|;
    assert s[0] in multiset(xs) && s[|s| - 1] in multiset(xs);
    forall y | y in xs ensures key(y) <= key(s[0]) && key(s[|s| - 1]) <= key(y) {
      assert y in multiset(s);
      var k :| 0 <= k < |s| && s[k] == y;
    }
  }

  /** The first n of the sorted list: elements of the input, best first,
      and every element left out is no better than any kept, which leaves
      fewer than n kept only when nothing is left out. */
  lemma TopOfSorted<T(!new)>(xs: seq<T>, key: T -> real, n: nat)
    ensures var top := Take(SortDesc(xs, key), n);
      && (forall k :: 0 <= k < |top| ==> top[k] in xs)
      && (forall k, j :: 0 <= k < j < |top| ==> key(top[k]) >= key(top[j]))
      && (forall y :: y in xs && y !in top ==> |top| == n && forall k :: 0 <= k < |top| ==> key(y) <= key(top[k]))
  {
    TopOfPermutation(xs, SortDesc(xs, key), key, n);
  }

  /** The same, for any sorted reordering of the input. */
  lemma TopOfPermutation<T(!new)>(xs: seq<T>, s: seq<T>, key: T -> real, n: nat)
    requires SortedDesc(s, key) && multiset(s) == multiset(xs)
    ensures var top := Take(s, n);
      && (forall k :: 0 <= k < |top| ==> top[k] in xs)
      && (forall k, j :: 0 <= k < j < |top| ==> key(top[k]) >= key(top[j]))
      && (forall y :: y in xs && y !in top ==> |top| == n && forall k :: 0 <= k < |top| ==> key(y) <= key(top[k]))
  {
    var top := Take(s, n);
    assert forall k :: 0 <= k < |top| ==> top[k] == s[k];
    forall k | 0 <= k < |top| ensures top[k] in xs {
      assert s[k] in multiset(xs);
    }
    forall y | y in xs && y !in top
      ensures |top| == n && forall k :: 0 <= k < |top| ==> key(y) <= key(top[k])
    {
      assert y in multiset(s);
      var j :| 0 <= j < |s| && s[j] == y;
      assert j >= |top|;
    }
  }

  // ---------------------------------------------------------------------
  // Numbers
  // ---------------------------------------------------------------------

  function Min(a: real, b: real): real { if a <= b then a else b }
  function Max(a: real, b: real): real { if a >= b then a else b }
  function MinInt(a: int, b: int): int { if a <= b then a else b }
  function MaxInt(a: int, b: int): int { if a >= b then a else b }

  /** `Math.max(0, Math.min(100, x))`. */
  function Clamp100(x: int): (r: int)
    ensures 0 <= r <= 100
    ensures 0 <= x <= 100 ==> r == x
  {
    if x < 0 then 0 else if x > 100 then 100 else x
  }

  function DigitChar(d: nat): char
    requires d < 10
  {
    ('0' as int + d) as char
  }

  /** The decimal text of a natural number, as template literals print it. */
  function NatToString(n: nat): (r: string)
    ensures |r| >= 1
    ensures forall i :: 0 <= i < |r| ==> '0' <= r[i] <= '9'
  {
    if n < 10 then [DigitChar(n)] else NatToString(n / 10) + [DigitChar(n % 10)]
  }
}
