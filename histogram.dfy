/**
 * What `analyze()` of the counting lexer computes, stated without the loop:
 * for each category, every distinct token text with the number of times it
 * was matched, in the order the texts were first seen.
 */
module Counting {
  import opened Wrappers
  import opened Tokens
  import opened LinkedMaps

  /** The distinct texts, each at the position where it first occurs. */
  function FirstOccurrences(vs: seq<string>): (r: seq<string>)
    ensures forall x :: x in r <==> x in vs
    ensures forall i, j :: 0 <= i < j < |r| ==> r[i] != r[j]
  {
    if vs == [] then []
    else
      var init, v := vs[..|vs| - 1], vs[|vs| - 1];
      assert vs == init + [v];
      FirstOccurrences(init) + (if v in init then [] else [v])
  }

  /** The entry `(key, number of occurrences in vs)` for each of the given keys, in their order. */
  function CountsOver(keys: seq<string>, vs: seq<string>): (h: Entries)
    ensures |h| == |keys|
  {
    seq(|keys|, i requires 0 <= i < |keys| => (keys[i], multiset(vs)[keys[i]]))
  }

  /**
   * The counts of a run of texts as the counting loop builds them: one
   * `put(v, getOrDefault(v, 0) + 1)` per text, in order.
   */
  function Histogram(vs: seq<string>): Entries
  {
    if vs == [] then []
    else
      var h := Histogram(vs[..|vs| - 1]);
      var v := vs[|vs| - 1];
      Increment(h, v)
  }

  /** Counting one more text is one more increment. */
  lemma HistogramSnoc(vs: seq<string>, v: string)
    ensures Histogram(vs + [v]) == Increment(Histogram(vs), v)
  {
    assert (vs + [v])[..|vs|] == vs;
  }

  /**
   * The counts in closed form: one entry per distinct text, in first-seen
   * order, holding its number of occurrences.
   */
  lemma {:induction false} HistogramClosedForm(vs: seq<string>)
    ensures Histogram(vs) == CountsOver(FirstOccurrences(vs), vs)
  {
    if vs != [] {
      var init, v := vs[..|vs| - 1], vs[|vs| - 1];
      assert vs == init + [v];
      HistogramClosedForm(init);
      HistogramSnoc(init, v);
      var fo := FirstOccurrences(init);
      if v in init {
        assert FirstOccurrences(vs) == fo;
        CountsSnocSeen(fo, init, v);
      } else {
        assert FirstOccurrences(vs) == fo + [v];
        CountsSnocNew(fo, init, v);
      }
    }
  }

  /** A text seen before: its count goes up by one where it stands. */
  lemma CountsSnocSeen(keys: seq<string>, vs: seq<string>, v: string)
    requires v in keys
    requires forall a, b :: 0 <= a < b < |keys| ==> keys[a] != keys[b]
    ensures var h := CountsOver(keys, vs);
            CountsOver(keys, vs + [v]) == Increment(h, v)
  {
    var h := CountsOver(keys, vs);
    var i :| 0 <= i < |keys| && keys[i] == v;
    assert forall a :: 0 <= a < |h| ==> h[a].0 == keys[a];
    IndexOfDistinct(h, i);
    var e := (v, multiset(vs)[v] + 1);
    assert Increment(h, v) == h[i := e];
    CountsOverSeen(keys, vs, v, i);
  }

  lemma CountsOverSeen(keys: seq<string>, vs: seq<string>, v: string, i: nat)
    requires i < |keys| && keys[i] == v
    requires forall a, b :: 0 <= a < b < |keys| ==> keys[a] != keys[b]
    ensures CountsOver(keys, vs + [v]) == CountsOver(keys, vs)[i := (v, multiset(vs)[v] + 1)]
  {
    assert multiset(vs + [v]) == multiset(vs) + multiset{v};
  }

  /** A new text: it goes last with a count of one. */
  lemma CountsSnocNew(keys: seq<string>, vs: seq<string>, v: string)
    requires v !in keys && v !in vs
    ensures var h := CountsOver(keys, vs);
            CountsOver(keys + [v], vs + [v]) == Increment(h, v)
  {
    var h := CountsOver(keys, vs);
    assert Keys(h) == keys;
    IncrementNew(h, v);
    CountsOverNew(keys, vs, v);
  }

  lemma CountsOverNew(keys: seq<string>, vs: seq<string>, v: string)
    requires v !in vs && v !in keys
    ensures CountsOver(keys + [v], vs + [v]) == CountsOver(keys, vs) + [(v, 1)]
  {
    assert multiset(vs + [v]) == multiset(vs) + multiset{v};
  }

  /** The keys of the counts are the first occurrences, so they are distinct. */
  lemma HistogramDistinct(vs: seq<string>)
    ensures Keys(Histogram(vs)) == FirstOccurrences(vs)
    ensures DistinctKeys(Histogram(vs))
  {
    HistogramClosedForm(vs);
  }

  /**
   * Each text appears once, with a count of at least one that equals its
   * number of occurrences; texts that never occur have no entry.
   */
  lemma HistogramCounts(vs: seq<string>)
    ensures DistinctKeys(Histogram(vs))
    ensures forall i :: 0 <= i < |Histogram(vs)| ==>
              Histogram(vs)[i].0 in vs && Histogram(vs)[i].1 == multiset(vs)[Histogram(vs)[i].0] >= 1
    ensures forall x :: Get(Histogram(vs), x) == if x in vs then Some(multiset(vs)[x]) else None
  {
    var fo := FirstOccurrences(vs);
    var h := Histogram(vs);
    HistogramClosedForm(vs);
    assert Keys(h) == fo;
    forall x ensures Get(h, x) == if x in vs then Some(multiset(vs)[x]) else None {
      GetSpec(h, x);
      if x in vs {
        var i :| 0 <= i < |fo| && fo[i] == x;
        assert h[i].0 == x;
      } else {
        assert x !in Keys(h);
      }
    }
  }

  /** The counts add up to the number of texts counted. */
  lemma {:induction false} HistogramSum(vs: seq<string>)
    ensures Sum(Histogram(vs)) == |vs|
  {
    if vs != [] {
      var init, v := vs[..|vs| - 1], vs[|vs| - 1];
      HistogramSum(init);
      IncrementSum(Histogram(init), v);
    }
  }

  /**
   * Once a text has an entry it keeps its place: the keys after a prefix of
   * the texts are a prefix of the keys after all of them.
   */
  lemma HistogramKeysStable(vs: seq<string>, n: nat)
    requires n <= |vs|
    ensures Keys(Histogram(vs[..n])) <= Keys(Histogram(vs))
  {
    HistogramDistinct(vs[..n]);
    HistogramDistinct(vs);
    FirstOccurrencesPrefix(vs, n);
  }

  /** The distinct texts of a prefix are a prefix of the distinct texts of the whole. */
  lemma {:induction false} FirstOccurrencesPrefix(vs: seq<string>, n: nat)
    requires n <= |vs|
    ensures FirstOccurrences(vs[..n]) <= FirstOccurrences(vs)
    decreases |vs|
  {
    if n < |vs| {
      var init := vs[..|vs| - 1];
      assert init[..n] == vs[..n];
      FirstOccurrencesPrefix(init, n);
      assert FirstOccurrences(init) <= FirstOccurrences(vs);
    } else {
      assert vs[..n] == vs;
    }
  }

  // ---------------------------------------------------------------------------
  // The table of all categories

  /** The outer map: one entry per category, keyed in `values()` order. */
  type Table = seq<(TokenType, Entries)>

  /** The texts of the tokens of one category, in scan order (duplicates kept). */
  function ValuesOf(toks: seq<Token>, t: TokenType): seq<string>
  {
    if toks == [] then []
    else
      var last := toks[|toks| - 1];
      ValuesOf(toks[..|toks| - 1], t) + (if last.tokenType == t then [last.value] else [])
  }

  /** One token counted: `put(text, getOrDefault(text, 0) + 1)` in the map of its category. */
  function CountToken(tab: Table, tok: Token): (r: Table)
    requires |tab| == |AllTokenTypes|
    ensures |r| == |AllTokenTypes|
  {
    var k := Ordinal(tok.tokenType);
    tab[k := (tok.tokenType, Increment(tab[k].1, tok.value))]
  }

  /**
   * The table of counts as the counting loop builds it: start from the
   * seeded table and count each token in turn.
   */
  function Tally(toks: seq<Token>): (tab: Table)
    ensures |tab| == |AllTokenTypes|
  {
    if toks == [] then PerType([])
    else CountToken(Tally(toks[..|toks| - 1]), toks[|toks| - 1])
  }

  /** The sum of every count in the table. */
  function TableTotal(tab: Table): nat
  {
    if tab == [] then 0 else TableTotal(tab[..|tab| - 1]) + Sum(tab[|tab| - 1].1)
  }

  /** Counting one more token is one more `CountToken`. */
  lemma TallySnoc(toks: seq<Token>, tok: Token)
    ensures Tally(toks + [tok]) == CountToken(Tally(toks), tok)
  {
    assert (toks + [tok])[..|toks|] == toks;
  }

  /** One more token adds its text to its own category's values only. */
  lemma ValuesOfSnoc(toks: seq<Token>, tok: Token, t: TokenType)
    ensures ValuesOf(toks + [tok], t) == ValuesOf(toks, t) + (if tok.tokenType == t then [tok.value] else [])
  {
    assert (toks + [tok])[..|toks|] == toks;
  }

  /** Tokens none of which has category t have no values under t. */
  lemma {:induction false} ValuesOfAbsent(toks: seq<Token>, t: TokenType)
    requires forall tok :: tok in toks ==> tok.tokenType != t
    ensures ValuesOf(toks, t) == []
  {
    if toks != [] {
      var init := toks[..|toks| - 1];
      assert forall tok :: tok in init ==> tok in toks;
      ValuesOfAbsent(init, t);
      assert toks[|toks| - 1] in toks;
    }
  }

  /**
   * The loop's table in closed form: the map of each category is the
   * histogram of the texts of that category's tokens, in first-seen order.
   */
  lemma {:induction false} TallyAt(toks: seq<Token>, k: nat)
    requires k < |AllTokenTypes|
    ensures Tally(toks)[k] == (AllTokenTypes[k], Histogram(ValuesOf(toks, AllTokenTypes[k])))
  {
    if toks == [] {
      assert ValuesOf([], AllTokenTypes[k]) == [];
    } else {
      var init, tok := toks[..|toks| - 1], toks[|toks| - 1];
      assert toks == init + [tok];
      TallyAt(init, k);
      TallyAtStep(init, tok, k);
    }
  }

  lemma TallyAtStep(init: seq<Token>, tok: Token, k: nat)
    requires k < |AllTokenTypes|
    requires Tally(init)[k] == (AllTokenTypes[k], Histogram(ValuesOf(init, AllTokenTypes[k])))
    ensures Tally(init + [tok])[k] == (AllTokenTypes[k], Histogram(ValuesOf(init + [tok], AllTokenTypes[k])))
  {
    var t := AllTokenTypes[k];
    TallySnoc(init, tok);
    ValuesOfSnoc(init, tok, t);
    var vs, vs' := ValuesOf(init, t), ValuesOf(init + [tok], t);
    if tok.tokenType == t {
      OrdinalInverse(k);
      IncrementOwn(Tally(init), tok, vs, vs');
    } else {
      assert Ordinal(tok.tokenType) != k;
      assert vs' == vs + [] == vs;
    }
  }

  /** Counting a token in its category's histogram gives the histogram with its text added. */
  lemma IncrementOwn(tab: Table, tok: Token, vs: seq<string>, vs': seq<string>)
    requires |tab| == |AllTokenTypes|
    requires tab[Ordinal(tok.tokenType)] == (tok.tokenType, Histogram(vs)) && vs' == vs + [tok.value]
    ensures CountToken(tab, tok)[Ordinal(tok.tokenType)] == (tok.tokenType, Histogram(vs'))
  {
    HistogramSnoc(vs, tok.value);
  }

  /** The table has one entry per category, in `values()` order. */
  lemma TallyKeys(toks: seq<Token>)
    ensures |Tally(toks)| == |AllTokenTypes|
    ensures forall k :: 0 <= k < |AllTokenTypes| ==> Tally(toks)[k].0 == AllTokenTypes[k]
  {
    forall k | 0 <= k < |AllTokenTypes| ensures Tally(toks)[k].0 == AllTokenTypes[k] {
      TallyAt(toks, k);
    }
  }

  /** The table total changes by the change in one category's sum. */
  lemma {:induction false} TableTotalUpdate(tab: Table, k: nat, e: (TokenType, Entries))
    requires k < |tab|
    ensures TableTotal(tab[k := e]) == TableTotal(tab) - Sum(tab[k].1) + Sum(e.1)
    decreases |tab|
  {
    var init := tab[..|tab| - 1];
    if k < |tab| - 1 {
      assert tab[k := e][..|tab| - 1] == init[k := e];
      TableTotalUpdate(init, k, e);
    } else {
      assert tab[k := e][..|tab| - 1] == init;
    }
  }

  /** A table of empty maps has total zero. */
  lemma {:induction false} TableTotalEmpty(tab: Table)
    requires forall k :: 0 <= k < |tab| ==> tab[k].1 == []
    ensures TableTotal(tab) == 0
  {
    if tab != [] {
      var init := tab[..|tab| - 1];
      assert forall k :: 0 <= k < |init| ==> init[k] == tab[k];
      TableTotalEmpty(init);
    }
  }

  /** One counted token adds one to the table total. */
  lemma CountTokenTotal(tab: Table, tok: Token)
    requires |tab| == |AllTokenTypes|
    ensures TableTotal(CountToken(tab, tok)) == TableTotal(tab) + 1
  {
    var k := Ordinal(tok.tokenType);
    TableTotalUpdate(tab, k, (tok.tokenType, Increment(tab[k].1, tok.value)));
    IncrementSum(tab[k].1, tok.value);
  }

  /** Every counted token contributes exactly one to the table total. */
  lemma {:induction false} TallyTotal(toks: seq<Token>)
    ensures TableTotal(Tally(toks)) == |toks|
  {
    if toks == [] {
      TableTotalEmpty(PerType([]));
    } else {
      var init, tok := toks[..|toks| - 1], toks[|toks| - 1];
      assert toks == init + [tok];
      TallyTotal(init);
      TallySnoc(init, tok);
      CountTokenTotal(Tally(init), tok);
    }
  }

  /**
   * What one category's map says: distinct texts, each with a count of at
   * least one equal to the number of tokens of that category with that text,
   * and every such text present.
   */
  lemma TallyEntries(toks: seq<Token>, k: nat)
    requires k < |AllTokenTypes|
    ensures var t := AllTokenTypes[k];
            var counts := Tally(toks)[k].1;
            DistinctKeys(counts)
            && (forall i :: 0 <= i < |counts| ==> counts[i].1 >= 1)
            && forall x :: Get(counts, x) == if Token(t, x) in toks then Some(multiset(toks)[Token(t, x)]) else None
  {
    var t := AllTokenTypes[k];
    var vs := ValuesOf(toks, t);
    TallyAt(toks, k);
    HistogramCounts(vs);
    forall x ensures (x in vs <==> Token(t, x) in toks) && multiset(vs)[x] == multiset(toks)[Token(t, x)] {
      ValuesOfCount(toks, t, x);
    }
  }

  /** Occurrences of a text among one category's values are occurrences of that token. */
  lemma {:induction false} ValuesOfCount(toks: seq<Token>, t: TokenType, x: string)
    ensures multiset(ValuesOf(toks, t))[x] == multiset(toks)[Token(t, x)]
    ensures x in ValuesOf(toks, t) <==> Token(t, x) in toks
  {
    if toks != [] {
      var init, tok := toks[..|toks| - 1], toks[|toks| - 1];
      assert toks == init + [tok];
      ValuesOfCount(init, t, x);
      var part := if tok.tokenType == t then [tok.value] else [];
      assert multiset(ValuesOf(toks, t)) == multiset(ValuesOf(init, t)) + multiset(part);
      assert multiset(toks) == multiset(init) + multiset{tok};
    }
  }
}
