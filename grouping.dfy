// Insertion-ordered grouping, as the session logger builds it with a
// `Map<K, V[]>`: `if (!m.has(k)) m.set(k, []); m.get(k)!.push(v)` for each
// pair in turn, then `Array.from(m.entries())`.

module Grouping {
  import opened Text

  /** The entries of the map in insertion order: each key with the values
      pushed under it, in push order. */
  type Groups<K, V> = seq<(K, seq<V>)>

  function Keys<K, V>(g: Groups<K, V>): seq<K> {
    seq(|g|, i requires 0 <= i < |g| => g[i].0)
  }

  /** The first components of a list of pairs. */
  function Firsts<K, V>(pairs: seq<(K, V)>): seq<K> {
    seq(|pairs|, i requires 0 <= i < |pairs| => pairs[i].0)
  }

  /** One step of the loop: v goes onto the list of the entry for k, or
      into a new last entry when k has none. */
  function Push<K(==), V>(g: Groups<K, V>, k: K, v: V): Groups<K, V> {
    if g == [] then [(k, [v])]
    else if g[0].0 == k then [(k, g[0].1 + [v])] + g[1..]
    else [g[0]] + Push(g[1..], k, v)
  }

  /** The map after the loop over the pairs. */
  function Grouped<K(==), V>(pairs: seq<(K, V)>): Groups<K, V> {
    if pairs == [] then []
    else
      var last := pairs[|pairs| - 1];
      Push(Grouped(pairs[..|pairs| - 1]), last.0, last.1)
  }

  /** The values paired with k, in order: the reference for what the map
      holds under k. */
  function ValuesFor<K(==), V>(pairs: seq<(K, V)>, k: K): seq<V> {
    if pairs == [] then []
    else
      var last := pairs[|pairs| - 1];
      ValuesFor(pairs[..|pairs| - 1], k) + (if last.0 == k then [last.1] else [])
  }

  /** The number of values held, over all entries. */
  function Size<K, V>(g: Groups<K, V>): nat {
    if g == [] then 0 else |g[0].1| + Size(g[1..])
  }

  // ---------------------------------------------------------------------
  // One step
  // ---------------------------------------------------------------------

  /** With distinct keys, a push appends v to the list under k and leaves
      every other entry alone; a new key becomes the last entry. */
  lemma PushShape<K, V>(g: Groups<K, V>, k: K, v: V)
    requires NoDuplicates(Keys(g))
    ensures k in Keys(g) ==> |Push(g, k, v)| == |g|
    ensures k in Keys(g) ==> forall i :: 0 <= i < |g| ==>
              Push(g, k, v)[i] == (if g[i].0 == k then (k, g[i].1 + [v]) else g[i])
    ensures k !in Keys(g) ==> Push(g, k, v) == g + [(k, [v])]
  {
    if k in Keys(g) {
      PushExisting(g, k, v);
    } else {
      PushNew(g, k, v);
    }
  }

  lemma {:induction false} PushExisting<K, V>(g: Groups<K, V>, k: K, v: V)
    requires NoDuplicates(Keys(g)) && k in Keys(g)
    ensures |Push(g, k, v)| == |g|
    ensures forall i :: 0 <= i < |g| ==>
              Push(g, k, v)[i] == (if g[i].0 == k then (k, g[i].1 + [v]) else g[i])
  {
    var rest := g[1..];
    assert Keys(g) == [g[0].0] + Keys(rest);
    if g[0].0 == k {
      var r := Push(g, k, v);
      assert r == [(k, g[0].1 + [v])] + rest;
      forall i | 1 <= i < |g| ensures g[i].0 != k && r[i] == g[i] {
        assert Keys(g)[0] == k && Keys(g)[i] == g[i].0;
        assert r[i] == rest[i - 1];
      }
    } else {
      assert forall i :: 0 <= i < |rest| ==> Keys(rest)[i] == Keys(g)[i + 1];
      PushExisting(rest, k, v);
      var r := Push(g, k, v);
      assert r == [g[0]] + Push(rest, k, v);
      forall i | 0 <= i < |g| ensures r[i] == (if g[i].0 == k then (k, g[i].1 + [v]) else g[i]) {
        if i > 0 {
          assert r[i] == Push(rest, k, v)[i - 1] && g[i] == rest[i - 1];
        }
      }
    }
  }

  lemma {:induction false} PushNew<K, V>(g: Groups<K, V>, k: K, v: V)
    requires k !in Keys(g)
    ensures Push(g, k, v) == g + [(k, [v])]
  {
    if g != [] {
      var rest := g[1..];
      assert Keys(g) == [g[0].0] + Keys(rest);
      PushNew(rest, k, v);
      assert g == [g[0]] + rest;
    }
  }

  lemma {:induction false} PushSize<K, V>(g: Groups<K, V>, k: K, v: V)
    ensures Size(Push(g, k, v)) == Size(g) + 1
  {
    if g != [] && g[0].0 == k {
      assert Push(g, k, v)[1..] == g[1..];
    } else if g != [] {
      PushSize(g[1..], k, v);
      assert Push(g, k, v)[1..] == Push(g[1..], k, v);
    }
  }

  lemma {:induction false} PushNonEmpty<K, V>(g: Groups<K, V>, k: K, v: V)
    requires forall i :: 0 <= i < |g| ==> g[i].1 != []
    ensures forall i :: 0 <= i < |Push(g, k, v)| ==> Push(g, k, v)[i].1 != []
  {
    if g != [] && g[0].0 != k {
      PushNonEmpty(g[1..], k, v);
      assert Push(g, k, v) == [g[0]] + Push(g[1..], k, v);
    }
  }

  // ---------------------------------------------------------------------
  // The whole loop
  // ---------------------------------------------------------------------

  lemma {:induction false} ValuesForAbsent<K, V>(pairs: seq<(K, V)>, k: K)
    requires k !in Firsts(pairs)
    ensures ValuesFor(pairs, k) == []
  {
    if pairs != [] {
      var init := pairs[..|pairs| - 1];
      assert Firsts(pairs) == Firsts(init) + [pairs[|pairs| - 1].0];
      ValuesForAbsent(init, k);
    }
  }

  lemma ValuesForAppend<K, V>(xs: seq<(K, V)>, ys: seq<(K, V)>, k: K)
    ensures ValuesFor(xs + ys, k) == ValuesFor(xs, k) + ValuesFor(ys, k)
    decreases |ys|
  {
    if ys == [] {
      assert xs + ys == xs;
    } else {
      assert (xs + ys)[..|xs + ys| - 1] == xs + ys[..|ys| - 1];
      ValuesForAppend(xs, ys[..|ys| - 1], k);
    }
  }

  /** A push onto a grouping that holds, under each key, the values of
      `init` for it holds the values of `init` extended by the new pair. */
  lemma PushValues<K, V>(init: seq<(K, V)>, g: Groups<K, V>, k: K, v: V)
    requires NoDuplicates(Keys(g))
    requires forall x :: x in Keys(g) <==> x in Firsts(init)
    requires forall i :: 0 <= i < |g| ==> g[i].1 == ValuesFor(init, g[i].0)
    ensures forall i :: 0 <= i < |Push(g, k, v)| ==> Push(g, k, v)[i].1 == ValuesFor(init + [(k, v)], Push(g, k, v)[i].0)
  {
    var pairs := init + [(k, v)];
    assert pairs[..|pairs| - 1] == init;
    assert forall x :: ValuesFor(pairs, x) == ValuesFor(init, x) + (if k == x then [v] else []);
    PushShape(g, k, v);
    var r := Push(g, k, v);
    if k !in Keys(g) {
      ValuesForAbsent(init, k);
      forall i | 0 <= i < |r| ensures r[i].1 == ValuesFor(pairs, r[i].0) {
        if i < |g| {
          assert Keys(g)[i] == g[i].0;
        }
      }
    }
  }

  /** `Array.from(m.entries())` after the loop: one entry per distinct key,
      in order of first occurrence, each holding exactly the values paired
      with its key, in order. */
  lemma {:induction false} GroupedShape<K(!new), V>(pairs: seq<(K, V)>)
    ensures Keys(Grouped(pairs)) == Dedup(Firsts(pairs))
    ensures forall i :: 0 <= i < |Grouped(pairs)| ==> Grouped(pairs)[i].1 == ValuesFor(pairs, Grouped(pairs)[i].0)
  {
    if pairs != [] {
      var init := pairs[..|pairs| - 1];
      var last := pairs[|pairs| - 1];
      GroupedShape(init);
      var g := Grouped(init);
      assert Firsts(pairs) == Firsts(init) + [last.0];
      assert Firsts(pairs)[..|pairs| - 1] == Firsts(init);
      PushShape(g, last.0, last.1);
      if last.0 in Keys(g) {
        assert Keys(Grouped(pairs)) == Keys(g);
      } else {
        assert Keys(Grouped(pairs)) == Keys(g) + [last.0];
      }
      assert init + [(last.0, last.1)] == pairs;
      PushValues(init, g, last.0, last.1);
    }
  }

  /** Every entry holds at least one value. */
  lemma {:induction false} GroupedNonEmpty<K, V>(pairs: seq<(K, V)>)
    ensures forall i :: 0 <= i < |Grouped(pairs)| ==> Grouped(pairs)[i].1 != []
  {
    if pairs != [] {
      GroupedNonEmpty(pairs[..|pairs| - 1]);
      var last := pairs[|pairs| - 1];
      PushNonEmpty(Grouped(pairs[..|pairs| - 1]), last.0, last.1);
    }
  }

  /** Every pair ends up in exactly one entry. */
  lemma {:induction false} GroupedSize<K, V>(pairs: seq<(K, V)>)
    ensures Size(Grouped(pairs)) == |pairs|
  {
    if pairs != [] {
      GroupedSize(pairs[..|pairs| - 1]);
      var last := pairs[|pairs| - 1];
      PushSize(Grouped(pairs[..|pairs| - 1]), last.0, last.1);
    }
  }

  // ---------------------------------------------------------------------
  // Entries derived from the map
  // ---------------------------------------------------------------------

  /** A reordering `out` of entries `es` built one per key of a grouping
      with distinct keys, each entry naming its key: `out` holds one entry
      per key and nothing else. */
  lemma PermutedEntries<K, V, E>(g: Groups<K, V>, es: seq<E>, out: seq<E>, name: E -> K)
    requires NoDuplicates(Keys(g))
    requires |es| == |g| && forall i :: 0 <= i < |g| ==> name(es[i]) == g[i].0
    requires multiset(out) == multiset(es)
    ensures |out| == |g|
    ensures forall k :: 0 <= k < |out| ==> exists i :: 0 <= i < |g| && out[k] == es[i]
    ensures forall x :: x in Keys(g) ==> exists k :: 0 <= k < |out| && name(out[k]) == x
    ensures forall k, j :: 0 <= k < j < |out| ==> name(out[k]) != name(out[j])
  {
    assert |out| == |multiset(out)| == |multiset(es)| == |es|;
    forall k | 0 <= k < |out| ensures exists i :: 0 <= i < |g| && out[k] == es[i] {
      assert out[k] in multiset(es);
    }
    forall x | x in Keys(g) ensures exists k :: 0 <= k < |out| && name(out[k]) == x {
      var i :| 0 <= i < |g| && Keys(g)[i] == x;
      assert es[i] in multiset(out);
    }
    forall k, j | 0 <= k < j < |out| ensures name(out[k]) != name(out[j]) {
      assert out[k] in multiset(es) && out[j] in multiset(es);
      var a :| 0 <= a < |es| && es[a] == out[k];
      var b :| 0 <= b < |es| && es[b] == out[j];
      assert Keys(g)[a] == g[a].0 && Keys(g)[b] == g[b].0;
      if a == b {
        TwiceCounted(out, k, j);
        assert NoDuplicates(es) by {
          forall i, i' | 0 <= i < i' < |es| ensures es[i] != es[i'] {
            assert Keys(g)[i] == g[i].0 && Keys(g)[i'] == g[i'].0;
          }
        }
        DistinctCount(es, out[k]);
      }
    }
  }
}
