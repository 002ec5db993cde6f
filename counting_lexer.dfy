/**
 * The current lexer: scans with the eight-group grammar, skips whitespace
 * and comment matches, counts every other match per category and text, and
 * prints the counts with their total.
 */
module CountingLexer {
  import opened Wrappers
  import opened Tokens
  import opened Grammar
  import opened Scanning
  import opened LinkedMaps
  import opened Counting
  import opened Report

  /** No kept token is whitespace or a comment. */
  lemma EmittedHasNoDiscarded(toks: seq<Token>)
    ensures ValuesOf(Emitted(toks), Whitespace) == [] && ValuesOf(Emitted(toks), Comment) == []
  {
    EmittedFilters(toks);
    ValuesOfAbsent(Emitted(toks), Whitespace);
    ValuesOfAbsent(Emitted(toks), Comment);
  }

  /** Counting only kept tokens leaves the WHITESPACE and COMMENT maps empty. */
  lemma TallyOfEmitted(toks: seq<Token>)
    ensures Tally(Emitted(toks))[Ordinal(Whitespace)].1 == []
    ensures Tally(Emitted(toks))[Ordinal(Comment)].1 == []
  {
    EmittedHasNoDiscarded(toks);
    TallyAt(Emitted(toks), Ordinal(Whitespace));
    TallyAt(Emitted(toks), Ordinal(Comment));
  }

  /** The kept matches grow by the new match unless it is whitespace or a comment. */
  lemma KeepStep(processed: seq<Token>, tok: Token)
    ensures Emitted(processed + [tok])
            == if IsDiscarded(tok.tokenType) then Emitted(processed) else Emitted(processed) + [tok]
  {
    EmittedAppend(processed, [tok]);
    EmittedOne(tok);
    assert Emitted(processed) + [] == Emitted(processed);
  }

  /**
   * A kept match is `put(text, getOrDefault(text, 0) + 1)` in the map of its
   * category, and changes no other map.
   */
  lemma CountKept(found: Table, kept: seq<Token>, tok: Token, k: nat, counts: Entries, found': Table)
    requires found == Tally(kept) && k == Ordinal(tok.tokenType) && counts == found[k].1
    requires found' == found[k := (tok.tokenType, Put(counts, tok.value, GetOrDefault(counts, tok.value, 0) + 1))]
    ensures found' == Tally(kept + [tok])
  {
    IncrementIsPut(counts, tok.value);
    TallySnoc(kept, tok);
  }

  /**
   * What the counts of the kept matches of a scan say: one entry per
   * category in `values()` order, the WHITESPACE and COMMENT maps empty,
   * and a total equal to the number of kept matches.
   */
  lemma CountsOfScan(toks: seq<Token>, found: Table)
    requires found == Tally(Emitted(toks))
    ensures |found| == |AllTokenTypes| && forall k :: 0 <= k < |found| ==> found[k].0 == AllTokenTypes[k]
    ensures found[Ordinal(Whitespace)].1 == [] && found[Ordinal(Comment)].1 == []
    ensures TableTotal(found) == |Emitted(toks)|
  {
    TallyKeys(Emitted(toks));
    TallyOfEmitted(toks);
    TallyTotal(Emitted(toks));
  }

  class Lexer {
    /** The text to analyse. */
    const input: string

    constructor(input: string)
      ensures this.input == input
    {
      this.input := input;
    }

    /**
     * The map of every category, in `values()` order, to the counts of the
     * texts matched under it: the `find()` loop's matches with whitespace
     * and comments dropped, counted one at a time.
     */
    method Analyze() returns (found: Table)
      ensures found == Tally(Emitted(Tokenize(TokenRegex, input, 0)))
      ensures |found| == |AllTokenTypes| && forall k :: 0 <= k < |found| ==> found[k].0 == AllTokenTypes[k]
      ensures found[Ordinal(Whitespace)].1 == [] && found[Ordinal(Comment)].1 == []
      ensures TableTotal(found) == |Emitted(Tokenize(TokenRegex, input, 0))|
    {
      found := [];
      for k := 0 to |AllTokenTypes|
        invariant |found| == k
        invariant forall j :: 0 <= j < k ==> found[j] == (AllTokenTypes[j], [])
      {
        found := found + [(AllTokenTypes[k], [])];
      }
      assert found == PerType([]);

      var pos := 0;
      ghost var processed: seq<Token> := [];
      ghost var kept: seq<Token> := [];
      var next := Find(TokenRegex, input, 0);
      while next.Some?
        invariant pos <= |input|
        invariant next == Find(TokenRegex, input, pos)
        invariant Tokenize(TokenRegex, input, 0) == processed + Tokenize(TokenRegex, input, pos)
        invariant kept == Emitted(processed)
        invariant found == Tally(kept)
        decreases |input| - pos
      {
        var m := next.value;
        var tok := Token(m.kind, input[m.start..m.end]);
        TokenizeResume(TokenRegex, input, pos, m, processed);
        KeepStep(processed, tok);
        if !IsDiscarded(tok.tokenType) {
          var k := Ordinal(tok.tokenType);
          var counts := found[k].1;
          ghost var before := found;
          found := found[k := (tok.tokenType, Put(counts, tok.value, GetOrDefault(counts, tok.value, 0) + 1))];
          CountKept(before, kept, tok, k, counts, found);
          kept := kept + [tok];
        }
        processed := processed + [tok];
        pos := m.end;
        next := Find(TokenRegex, input, pos);
      }
      assert Tokenize(TokenRegex, input, pos) == [];
      assert processed == Tokenize(TokenRegex, input, 0);
      CountsOfScan(processed, found);
    }

    /**
     * The text printed for a table of counts, and nothing else: the line of
     * every non-empty category, then a blank line and the total.
     */
    method PrintTokens(tokenMap: Table) returns (out: string)
      ensures out == ReportText(tokenMap)
    {
      out := "";
      var totalTokens := 0;
      for k := 0 to |tokenMap|
        invariant out == Sections(tokenMap[..k])
        invariant totalTokens == TableTotal(tokenMap[..k])
      {
        var entry := tokenMap[k];
        ghost var counted := totalTokens;
        SectionsPrefix(tokenMap, k);
        if entry.1 != [] {
          var formatted: seq<string> := [];
          for e := 0 to |entry.1|
            invariant formatted == Formatted(entry.1[..e])
            invariant totalTokens == counted + Sum(entry.1[..e])
          {
            FormattedPrefix(entry.1, e);
            formatted := formatted + [EntryText(entry.1[e])];
            totalTokens := totalTokens + entry.1[e].1;
          }
          assert entry.1[..|entry.1|] == entry.1;
          var line := TypeName(entry.0) + ": " + Join(", ", formatted) + "\n";
          SectionLine(entry, formatted);
          out := out + line;
        } else {
          assert out + "" == out;
        }
      }
      assert tokenMap[..|tokenMap|] == tokenMap;
      out := out + "\n" + TotalLabel + Decimal(totalTokens) + "\n";
    }
  }
}
