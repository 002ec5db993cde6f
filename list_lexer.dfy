/**
 * The older lexer: scans with the six-group grammar (no whitespace or
 * comment groups) and files every match, in scan order, as a token in the
 * list of its category.
 */
module ListLexer {
  import opened Wrappers
  import opened Tokens
  import opened Grammar
  import opened Scanning

  /** The outer map: one list of tokens per category, keyed in `values()` order. */
  type Lists = seq<(TokenType, seq<Token>)>

  /** One match filed: `get(type).add(token)` on the list of the token's own category. */
  function FileToken(lists: Lists, tok: Token): (r: Lists)
    requires |lists| == |AllTokenTypes|
    ensures |r| == |AllTokenTypes|
  {
    var k := Ordinal(tok.tokenType);
    lists[k := (tok.tokenType, lists[k].1 + [tok])]
  }

  /** The lists as the loop builds them: start from the seeded map and file each token in turn. */
  function Group(toks: seq<Token>): (lists: Lists)
    ensures |lists| == |AllTokenTypes|
  {
    if toks == [] then PerType([])
    else FileToken(Group(toks[..|toks| - 1]), toks[|toks| - 1])
  }

  /** Filing one more token is one more `FileToken`. */
  lemma GroupSnoc(toks: seq<Token>, tok: Token)
    ensures Group(toks + [tok]) == FileToken(Group(toks), tok)
  {
    assert (toks + [tok])[..|toks|] == toks;
  }

  /**
   * The lists in closed form: the list of each category holds exactly the
   * tokens of that category, in scan order.
   */
  lemma {:induction false} GroupAt(toks: seq<Token>, k: nat)
    requires k < |AllTokenTypes|
    ensures Group(toks)[k] == (AllTokenTypes[k], OfType(toks, AllTokenTypes[k]))
  {
    if toks != [] {
      var init, tok := toks[..|toks| - 1], toks[|toks| - 1];
      assert toks == init + [tok];
      GroupAt(init, k);
      GroupAtStep(init, tok, k);
    }
  }

  lemma GroupAtStep(init: seq<Token>, tok: Token, k: nat)
    requires k < |AllTokenTypes|
    requires Group(init)[k] == (AllTokenTypes[k], OfType(init, AllTokenTypes[k]))
    ensures Group(init + [tok])[k] == (AllTokenTypes[k], OfType(init + [tok], AllTokenTypes[k]))
  {
    var t := AllTokenTypes[k];
    GroupSnoc(init, tok);
    OfTypeSnoc(init, tok, t);
    if tok.tokenType == t {
      OrdinalInverse(k);
    } else {
      assert Ordinal(tok.tokenType) != k;
      assert OfType(init, t) + [] == OfType(init, t);
    }
  }

  lemma OfTypeSnoc(toks: seq<Token>, tok: Token, t: TokenType)
    ensures OfType(toks + [tok], t) == OfType(toks, t) + (if tok.tokenType == t then [tok] else [])
  {
    assert (toks + [tok])[..|toks|] == toks;
  }

  /**
   * Every list holds only tokens of its own category that were matched, and
   * every matched token is in the list of its category as often as it was
   * matched: duplicates are kept.
   */
  lemma GroupFiles(toks: seq<Token>, k: nat)
    requires k < |AllTokenTypes|
    ensures forall tok :: tok in Group(toks)[k].1 ==> tok in toks && tok.tokenType == AllTokenTypes[k]
    ensures forall tok :: tok in toks && tok.tokenType == AllTokenTypes[k] ==>
              multiset(Group(toks)[k].1)[tok] == multiset(toks)[tok]
  {
    GroupAt(toks, k);
    OfTypeFilters(toks, AllTokenTypes[k]);
    forall tok | tok in toks && tok.tokenType == AllTokenTypes[k]
      ensures multiset(Group(toks)[k].1)[tok] == multiset(toks)[tok]
    {
      OfTypeKeepsDuplicates(toks, tok);
    }
  }

  /** Each token is filed under its own category and nowhere else. */
  lemma FiledUnderOwnType(toks: seq<Token>, tok: Token, k: nat)
    requires k < |AllTokenTypes|
    ensures tok in Group(toks)[k].1 <==> tok in toks && AllTokenTypes[k] == tok.tokenType
  {
    GroupFiles(toks, k);
    if tok in toks && AllTokenTypes[k] == tok.tokenType {
      assert multiset(toks)[tok] > 0;
    }
  }

  /** Lists only grow at their ends: the lists of a longer scan extend those of its prefix. */
  lemma GroupAppend(xs: seq<Token>, ys: seq<Token>, k: nat)
    requires k < |AllTokenTypes|
    ensures Group(xs + ys)[k].1 == Group(xs)[k].1 + Group(ys)[k].1
  {
    GroupAt(xs + ys, k);
    GroupAt(xs, k);
    GroupAt(ys, k);
    OfTypeAppend(xs, ys, AllTokenTypes[k]);
  }

  /** The number of tokens in all lists together. */
  function TotalLength(lists: Lists): nat
  {
    if lists == [] then 0 else TotalLength(lists[..|lists| - 1]) + |lists[|lists| - 1].1|
  }

  /** The total changes by the change in length of one list. */
  lemma {:induction false} TotalLengthUpdate(lists: Lists, k: nat, e: (TokenType, seq<Token>))
    requires k < |lists|
    ensures TotalLength(lists[k := e]) == TotalLength(lists) - |lists[k].1| + |e.1|
    decreases |lists|
  {
    var init := lists[..|lists| - 1];
    if k < |lists| - 1 {
      assert lists[k := e][..|lists| - 1] == init[k := e];
      TotalLengthUpdate(init, k, e);
    } else {
      assert lists[k := e][..|lists| - 1] == init;
    }
  }

  /** Lists that are all empty hold no token. */
  lemma {:induction false} TotalLengthEmpty(lists: Lists)
    requires forall k :: 0 <= k < |lists| ==> lists[k].1 == []
    ensures TotalLength(lists) == 0
  {
    if lists != [] {
      var init := lists[..|lists| - 1];
      assert forall k :: 0 <= k < |init| ==> init[k] == lists[k];
      TotalLengthEmpty(init);
    }
  }

  /** Every match is filed exactly once: the lists hold as many tokens as were matched. */
  lemma {:induction false} GroupTotal(toks: seq<Token>)
    ensures TotalLength(Group(toks)) == |toks|
  {
    if toks == [] {
      TotalLengthEmpty(PerType([]));
    } else {
      var init, tok := toks[..|toks| - 1], toks[|toks| - 1];
      GroupTotal(init);
      var lists, k := Group(init), Ordinal(tok.tokenType);
      TotalLengthUpdate(lists, k, (tok.tokenType, lists[k].1 + [tok]));
    }
  }

  /** A category outside the grammar gets no token, so its list stays empty. */
  lemma ListOutsideGrammar(toks: seq<Token>, t: TokenType)
    requires forall tok :: tok in toks ==> tok.tokenType in LegacyTokenRegex
    requires t !in LegacyTokenRegex
    ensures Group(toks)[Ordinal(t)].1 == []
  {
    GroupAt(toks, Ordinal(t));
    OfTypeAbsent(toks, t);
  }

  /** The scan of this grammar never yields whitespace or comment tokens, so those lists stay empty. */
  lemma ScanHasNoDiscarded(s: string)
    ensures Group(Tokenize(LegacyTokenRegex, s, 0))[Ordinal(Whitespace)].1 == []
    ensures Group(Tokenize(LegacyTokenRegex, s, 0))[Ordinal(Comment)].1 == []
  {
    var toks := Tokenize(LegacyTokenRegex, s, 0);
    TokenizeTokens(LegacyTokenRegex, s, 0);
    ListOutsideGrammar(toks, Whitespace);
    ListOutsideGrammar(toks, Comment);
  }

  /**
   * A matched token filed: `add` on the list of its category, the other
   * lists unchanged.
   */
  lemma FileMatch(found: Lists, done: seq<Token>, tok: Token, k: nat, list: seq<Token>, found': Lists)
    requires found == Group(done) && k == Ordinal(tok.tokenType) && list == found[k].1
    requires found' == found[k := (tok.tokenType, list + [tok])]
    ensures found' == Group(done + [tok])
  {
    GroupSnoc(done, tok);
  }

  /** What the lists of a scan say: seeded keys, empty whitespace and comment lists, and a total. */
  lemma ListsOfScan(toks: seq<Token>, s: string, found: Lists)
    requires toks == Tokenize(LegacyTokenRegex, s, 0) && found == Group(toks)
    ensures |found| == |AllTokenTypes| && forall k :: 0 <= k < |found| ==> found[k].0 == AllTokenTypes[k]
    ensures found[Ordinal(Whitespace)].1 == [] && found[Ordinal(Comment)].1 == []
    ensures TotalLength(found) == |toks|
  {
    forall k | 0 <= k < |found| ensures found[k].0 == AllTokenTypes[k] {
      GroupAt(toks, k);
    }
    ScanHasNoDiscarded(s);
    GroupTotal(toks);
  }

  class Lexer {
    /** The text to analyse. */
    const input: string

    constructor(input: string)
      ensures this.input == input
    {
      this.input := input;
    }

    /**
     * The map of every category, in `values()` order, to the tokens matched
     * under it in scan order: each match of the `find()` loop filed once.
     */
    method Analyze() returns (found: Lists)
      ensures found == Group(Tokenize(LegacyTokenRegex, input, 0))
      ensures |found| == |AllTokenTypes| && forall k :: 0 <= k < |found| ==> found[k].0 == AllTokenTypes[k]
      ensures found[Ordinal(Whitespace)].1 == [] && found[Ordinal(Comment)].1 == []
      ensures TotalLength(found) == |Tokenize(LegacyTokenRegex, input, 0)|
    {
      found := [];
      for k := 0 to |AllTokenTypes|
        invariant |found| == k
        invariant forall j :: 0 <= j < k ==> found[j] == (AllTokenTypes[j], [])
      {
        found := found + [(AllTokenTypes[k], [])];
      }
      assert found == PerType([]);

      var pos := 0;
      ghost var done: seq<Token> := [];
      var next := Find(LegacyTokenRegex, input, 0);
      while next.Some?
        invariant pos <= |input|
        invariant next == Find(LegacyTokenRegex, input, pos)
        invariant Tokenize(LegacyTokenRegex, input, 0) == done + Tokenize(LegacyTokenRegex, input, pos)
        invariant found == Group(done)
        decreases |input| - pos
      {
        var m := next.value;
        var tok := Token(m.kind, input[m.start..m.end]);
        TokenizeResume(LegacyTokenRegex, input, pos, m, done);
        var k := Ordinal(tok.tokenType);
        var list := found[k].1;
        ghost var before := found;
        found := found[k := (tok.tokenType, list + [tok])];
        FileMatch(before, done, tok, k, list, found);
        done := done + [tok];
        pos := m.end;
        next := Find(LegacyTokenRegex, input, pos);
      }
      assert Tokenize(LegacyTokenRegex, input, pos) == [];
      assert done == Tokenize(LegacyTokenRegex, input, 0);
      ListsOfScan(done, input, found);
    }
  }
}
