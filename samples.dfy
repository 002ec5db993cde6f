/**
 * Concrete scans. Each sample names its text through a parameter fixed by its
 * precondition: first the reference scanner is followed one token at a time,
 * then the `find()` loop is shown to produce the same tokens.
 */
module Samples {
  import opened Wrappers
  import opened Tokens
  import opened Grammar
  import opened GrammarFacts
  import opened Scanning
  import opened ListLexer
  import opened Counting

  // ---------------------------------------------------------------------------
  // One token at a time

  /** A run of known length: every character in it satisfies `p` and the next one does not. */
  lemma {:induction false} RunLengthIs(s: string, i: nat, p: char -> bool, n: nat)
    requires i + n <= |s|
    requires forall j :: i <= j < i + n ==> p(s[j])
    requires i + n == |s| || !p(s[i + n])
    ensures RunLength(s, i, p) == n
    decreases n
  {
    if n > 0 {
      RunLengthIs(s, i + 1, p, n - 1);
    }
  }

  /** No comment starts at a character other than a slash. */
  lemma NotCommentAt(s: string, p: nat)
    requires p < |s| && s[p] != '/'
    ensures MatchComment(s, p).None?
  {
    assert !StartsWith(s, p, "//") && !StartsWith(s, p, "/*") by {
      assert "//"[0] == '/' && "/*"[0] == '/';
    }
  }

  lemma ClassifyWordStart(d: bool, s: string, p: nat)
    requires p < |s| && IsIdentifierStart(s[p])
    ensures Classify(d, s, p) == Some(WordHit(s, p))
  {
    NotCommentAt(s, p);
  }

  /** A word of n characters: a keyword when listed and after a boundary, otherwise an identifier. */
  lemma ScanWord(d: bool, s: string, p: nat, n: nat, keyword: bool)
    requires p < |s| && IsIdentifierStart(s[p]) && 1 <= n && p + n <= |s|
    requires forall j :: p < j < p + n ==> IsWordChar(s[j])
    requires p + n == |s| || !IsWordChar(s[p + n])
    requires keyword == (IsBoundary(s, p) && s[p..p + n] in Keywords)
    ensures Scan(d, s, p) == [Token(if keyword then Keyword else Identifier, s[p..p + n])] + Scan(d, s, p + n)
  {
    ClassifyWordStart(d, s, p);
    RunLengthIs(s, p + 1, IsWordChar, n - 1);
    ScanHere(d, s, p, Hit(if keyword then Keyword else Identifier, n));
  }

  lemma ClassifyOperator(d: bool, s: string, p: nat)
    requires p < |s| && IsOperatorChar(s[p])
    requires d ==> MatchComment(s, p).None?
    ensures Classify(d, s, p) == Some(Hit(Operator, OperatorLength(s, p)))
  {
  }

  /** An operator character that opens no comment: an operator of one or two characters. */
  lemma ScanOperator(d: bool, s: string, p: nat, n: nat)
    requires p < |s| && IsOperatorChar(s[p])
    requires d ==> MatchComment(s, p).None?
    requires n == if p + 1 < |s| && IsTwoCharOperator(s[p], s[p + 1]) then 2 else 1
    ensures Scan(d, s, p) == [Token(Operator, s[p..p + n])] + Scan(d, s, p + n)
  {
    ClassifyOperator(d, s, p);
    ScanHere(d, s, p, Hit(Operator, n));
  }

  lemma ClassifyConstant(d: bool, s: string, p: nat)
    requires p < |s| && (IsDigit(s[p]) || (s[p] == '.' && p + 1 < |s| && IsDigit(s[p + 1])))
    ensures MatchConstant(s, p).Some?
    ensures Classify(d, s, p) == Some(Hit(Constant, MatchConstant(s, p).value))
  {
    NotCommentAt(s, p);
    MatchConstantStarts(s, p);
  }

  /** A digit, or a dot before a digit, starts a constant of the length the constant group matches. */
  lemma ScanConstant(d: bool, s: string, p: nat, n: nat)
    requires p < |s| && (IsDigit(s[p]) || (s[p] == '.' && p + 1 < |s| && IsDigit(s[p + 1])))
    requires MatchConstant(s, p) == Some(n)
    ensures Scan(d, s, p) == [Token(Constant, s[p..p + n])] + Scan(d, s, p + n)
  {
    ClassifyConstant(d, s, p);
    ScanHere(d, s, p, Hit(Constant, n));
  }

  lemma ClassifyPunctuator(d: bool, s: string, p: nat)
    requires p < |s| && IsPunctuator(s[p]) && !(s[p] == '.' && p + 1 < |s| && IsDigit(s[p + 1]))
    ensures Classify(d, s, p) == Some(Hit(Punctuator, 1))
  {
    NotCommentAt(s, p);
  }

  /** A punctuator character that starts no constant is a one-character token. */
  lemma ScanPunctuator(d: bool, s: string, p: nat)
    requires p < |s| && IsPunctuator(s[p]) && !(s[p] == '.' && p + 1 < |s| && IsDigit(s[p + 1]))
    ensures Scan(d, s, p) == [Token(Punctuator, s[p..p + 1])] + Scan(d, s, p + 1)
  {
    ClassifyPunctuator(d, s, p);
    ScanHere(d, s, p, Hit(Punctuator, 1));
  }

  /** A character that starts no word, operator, comment, whitespace or constant: the last two groups decide. */
  lemma ClassifyOther(d: bool, s: string, p: nat)
    requires p < |s| && !IsSpace(s[p]) && !IsWordChar(s[p]) && !IsOperatorChar(s[p]) && s[p] != '.'
    ensures Classify(d, s, p) == OtherHit(s, p)
  {
    NotCommentAt(s, p);
  }

  lemma QuoteStartsNothingElse(c: char)
    requires c == '"'
    ensures !IsSpace(c) && !IsWordChar(c) && !IsOperatorChar(c) && c != '.' && !IsPunctuator(c)
  {
  }

  lemma ClassifyLiteral(d: bool, s: string, p: nat)
    requires p < |s| && s[p] == '"' && LiteralEnd(s, p + 1).Some?
    ensures Classify(d, s, p) == Some(Hit(Literal, LiteralEnd(s, p + 1).value - p))
  {
    QuoteStartsNothingElse(s[p]);
    ClassifyOther(d, s, p);
  }

  /** An opening quote whose literal is closed: a string literal token up to the closing quote. */
  lemma ScanLiteral(d: bool, s: string, p: nat)
    requires p < |s| && s[p] == '"' && LiteralEnd(s, p + 1).Some?
    ensures var e := LiteralEnd(s, p + 1).value;
            Scan(d, s, p) == [Token(Literal, s[p..e])] + Scan(d, s, e)
  {
    ClassifyLiteral(d, s, p);
    ScanHere(d, s, p, Hit(Literal, LiteralEnd(s, p + 1).value - p));
  }

  /** A comment the current grammar matches is a comment token. */
  lemma ScanComment(s: string, p: nat, n: nat)
    requires p < |s| && s[p] == '/' && MatchComment(s, p) == Some(n)
    ensures Scan(true, s, p) == [Token(Comment, s[p..p + n])] + Scan(true, s, p + n)
  {
    ScanHere(true, s, p, Hit(Comment, n));
  }

  /** The current grammar takes a whole run of whitespace as one token. */
  lemma ScanSpaces(s: string, p: nat, n: nat)
    requires p < |s| && 1 <= n && p + n <= |s|
    requires forall j :: p <= j < p + n ==> IsSpace(s[j])
    requires p + n == |s| || !IsSpace(s[p + n])
    ensures Scan(true, s, p) == [Token(Whitespace, s[p..p + n])] + Scan(true, s, p + n)
  {
    RunLengthIs(s, p, IsSpace, n);
    ScanHere(true, s, p, Hit(Whitespace, n));
  }

  /** An opening quote that no quote closes starts nothing and is stepped over. */
  lemma ScanUnclosedQuote(d: bool, s: string, p: nat)
    requires p < |s| && s[p] == '"' && LiteralEnd(s, p + 1).None?
    ensures Scan(d, s, p) == Scan(d, s, p + 1)
  {
    QuoteStartsNothingElse(s[p]);
    ClassifyOther(d, s, p);
    ScanSkip(d, s, p);
  }

  lemma ClassifyNothing(d: bool, s: string, p: nat)
    requires p < |s| && (!d || !IsSpace(s[p])) && !IsWordChar(s[p]) && !IsOperatorChar(s[p])
    requires !IsPunctuator(s[p]) && s[p] != '"' && s[p] != '.'
    ensures Classify(d, s, p).None?
  {
    if !IsSpace(s[p]) {
      ClassifyOther(d, s, p);
    }
  }

  /** A character that starts no token, whitespace included for the older grammar, is stepped over. */
  lemma ScanNothing(d: bool, s: string, p: nat)
    requires p < |s| && (!d || !IsSpace(s[p])) && !IsWordChar(s[p]) && !IsOperatorChar(s[p])
    requires !IsPunctuator(s[p]) && s[p] != '"' && s[p] != '.'
    ensures Scan(d, s, p) == Scan(d, s, p + 1)
  {
    ClassifyNothing(d, s, p);
    ScanSkip(d, s, p);
  }

  // ---------------------------------------------------------------------------
  // Words

  lemma KeywordScan(s: string)
    requires s == "int"
    ensures Scan(true, s, 0) == [Token(Keyword, "int")]
  {
    assert s[0..3] == Keywords[5];
    ScanWord(true, s, 0, 3, true);
    assert s[0..3] == s;
  }

  /** `int` on its own is a keyword. */
  lemma KeywordSample(s: string)
    requires s == "int"
    ensures Tokenize(TokenRegex, s, 0) == [Token(Keyword, "int")]
  {
    KeywordScan(s);
    TokenizeIsScan(true, s, 0);
  }

  lemma IdentifierScan(s: string)
    requires s == "integer"
    ensures Scan(true, s, 0) == [Token(Identifier, "integer")]
  {
    assert s[0..7] !in Keywords;
    assert forall j :: 0 < j < 7 ==> IsWordChar(s[j]);
    ScanWord(true, s, 0, 7, false);
    assert s[0..7] == s;
    assert Scan(true, s, 7) == [];
  }

  /** A keyword inside a longer word does not count: `integer` is one identifier. */
  lemma IdentifierSample(s: string)
    requires s == "integer"
    ensures Tokenize(TokenRegex, s, 0) == [Token(Identifier, "integer")]
  {
    IdentifierScan(s);
    TokenizeIsScan(true, s, 0);
  }

  lemma DigitBeforeKeywordScan(s: string)
    requires s == "3int"
    ensures Scan(true, s, 0) == [Token(Constant, "3"), Token(Identifier, "int")]
  {
    RunLengthIs(s, 0, IsDigit, 1);
    assert MatchConstant(s, 0) == Some(1);
    ScanConstant(true, s, 0, 1);
    assert !IsBoundary(s, 1);
    ScanWord(true, s, 1, 3, false);
    assert s[0..1] == "3" && s[1..4] == "int";
    assert Scan(true, s, 4) == [];
  }

  /** No boundary between a digit and a letter: `3int` is a constant, then the identifier `int`. */
  lemma DigitBeforeKeywordSample(s: string)
    requires s == "3int"
    ensures Tokenize(TokenRegex, s, 0) == [Token(Constant, "3"), Token(Identifier, "int")]
  {
    DigitBeforeKeywordScan(s);
    TokenizeIsScan(true, s, 0);
  }

  // ---------------------------------------------------------------------------
  // Operators and constants

  lemma ShiftAssignScan(s: string)
    requires s == "<<="
    ensures Scan(true, s, 0) == [Token(Operator, "<"), Token(Operator, "<=")]
  {
    NotCommentAt(s, 0);
    ScanOperator(true, s, 0, 1);
    NotCommentAt(s, 1);
    ScanOperator(true, s, 1, 2);
    assert s[0..1] == "<" && s[1..3] == "<=";
    assert Scan(true, s, 3) == [];
  }

  /** `<=?` is tried before `<<=?`: `<<=` is `<` then `<=`. */
  lemma ShiftAssignSample(s: string)
    requires s == "<<="
    ensures Tokenize(TokenRegex, s, 0) == [Token(Operator, "<"), Token(Operator, "<=")]
  {
    ShiftAssignScan(s);
    TokenizeIsScan(true, s, 0);
  }

  lemma NegativeNumberScan(s: string)
    requires s == "-5"
    ensures Scan(true, s, 0) == [Token(Operator, "-"), Token(Constant, "5")]
  {
    NotCommentAt(s, 0);
    ScanOperator(true, s, 0, 1);
    RunLengthIs(s, 1, IsDigit, 1);
    assert MatchConstant(s, 1) == Some(1);
    ScanConstant(true, s, 1, 1);
    assert s[0..1] == "-" && s[1..2] == "5";
    assert Scan(true, s, 2) == [];
  }

  /** The operator group comes before the signed constant: `-5` is `-` then `5`. */
  lemma NegativeNumberSample(s: string)
    requires s == "-5"
    ensures Tokenize(TokenRegex, s, 0) == [Token(Operator, "-"), Token(Constant, "5")]
  {
    NegativeNumberScan(s);
    TokenizeIsScan(true, s, 0);
  }

  lemma TrailingDotScan(s: string)
    requires s == "1."
    ensures Scan(true, s, 0) == [Token(Constant, "1.")]
  {
    RunLengthIs(s, 0, IsDigit, 1);
    RunLengthIs(s, 2, IsDigit, 0);
    assert Mantissa(s, 0) == Some(2);
    assert MatchConstant(s, 0) == Some(2);
    ScanConstant(true, s, 0, 2);
    assert s[0..2] == s;
    assert Scan(true, s, 2) == [];
  }

  /** A trailing dot belongs to the constant: `1.` is one token. */
  lemma TrailingDotSample(s: string)
    requires s == "1."
    ensures Tokenize(TokenRegex, s, 0) == [Token(Constant, "1.")]
  {
    TrailingDotScan(s);
    TokenizeIsScan(true, s, 0);
  }

  lemma LeadingDotScan(s: string)
    requires s == ".5"
    ensures Scan(true, s, 0) == [Token(Constant, ".5")]
  {
    RunLengthIs(s, 1, IsDigit, 1);
    assert Mantissa(s, 0) == Some(2);
    assert MatchConstant(s, 0) == Some(2);
    ScanConstant(true, s, 0, 2);
    assert s[0..2] == s;
    assert Scan(true, s, 2) == [];
  }

  /** A leading dot with a digit after it is a constant: `.5` is one token. */
  lemma LeadingDotSample(s: string)
    requires s == ".5"
    ensures Tokenize(TokenRegex, s, 0) == [Token(Constant, ".5")]
  {
    LeadingDotScan(s);
    TokenizeIsScan(true, s, 0);
  }

  lemma ExponentConstant(s: string)
    requires s == "1.5e-3"
    ensures MatchConstant(s, 0) == Some(6)
  {
    RunLengthIs(s, 0, IsDigit, 1);
    RunLengthIs(s, 2, IsDigit, 1);
    assert Mantissa(s, 0) == Some(3);
    RunLengthIs(s, 5, IsDigit, 1);
    assert Exponent(s, 3) == 3;
  }

  lemma ExponentScan(s: string)
    requires s == "1.5e-3"
    ensures Scan(true, s, 0) == [Token(Constant, "1.5e-3")]
  {
    ExponentConstant(s);
    ScanConstant(true, s, 0, 6);
    assert s[0..6] == s;
    assert Scan(true, s, 6) == [];
  }

  /** Fraction and signed exponent in one constant: `1.5e-3`. */
  lemma ExponentSample(s: string)
    requires s == "1.5e-3"
    ensures Tokenize(TokenRegex, s, 0) == [Token(Constant, "1.5e-3")]
  {
    ExponentScan(s);
    TokenizeIsScan(true, s, 0);
  }

  lemma BareExponentScan(s: string)
    requires s == "1e"
    ensures Scan(true, s, 0) == [Token(Constant, "1"), Token(Identifier, "e")]
  {
    RunLengthIs(s, 0, IsDigit, 1);
    assert Exponent(s, 1) == 0;
    assert MatchConstant(s, 0) == Some(1);
    ScanConstant(true, s, 0, 1);
    assert s[1..2] !in Keywords;
    ScanWord(true, s, 1, 1, false);
    assert s[0..1] == "1" && s[1..2] == "e";
    assert Scan(true, s, 2) == [];
  }

  /** An exponent needs digits: `1e` is the constant `1`, then the identifier `e`. */
  lemma BareExponentSample(s: string)
    requires s == "1e"
    ensures Tokenize(TokenRegex, s, 0) == [Token(Constant, "1"), Token(Identifier, "e")]
  {
    BareExponentScan(s);
    TokenizeIsScan(true, s, 0);
  }

  lemma LoneDotScan(s: string)
    requires s == "."
    ensures Scan(true, s, 0) == [Token(Punctuator, ".")]
  {
    ScanPunctuator(true, s, 0);
    assert s[0..1] == s;
    assert Scan(true, s, 1) == [];
  }

  /** A dot with no digit after it is a punctuator. */
  lemma LoneDotSample(s: string)
    requires s == "."
    ensures Tokenize(TokenRegex, s, 0) == [Token(Punctuator, ".")]
  {
    LoneDotScan(s);
    TokenizeIsScan(true, s, 0);
  }

  // ---------------------------------------------------------------------------
  // Literals, comments and unmatched characters

  lemma EscapedQuoteScan(s: string)
    requires s == "\"a\\\"b\""
    ensures Scan(true, s, 0) == [Token(Literal, "\"a\\\"b\"")]
  {
    assert LiteralEnd(s, 5) == Some(6);
    assert LiteralEnd(s, 4) == Some(6);
    assert LiteralEnd(s, 2) == Some(6);
    assert LiteralEnd(s, 1) == Some(6);
    ScanLiteral(true, s, 0);
    assert s[0..6] == s;
    assert Scan(true, s, 6) == [];
  }

  /** An escaped quote does not end a string literal. */
  lemma EscapedQuoteSample(s: string)
    requires s == "\"a\\\"b\""
    ensures Tokenize(TokenRegex, s, 0) == [Token(Literal, "\"a\\\"b\"")]
  {
    EscapedQuoteScan(s);
    TokenizeIsScan(true, s, 0);
  }

  lemma UnclosedQuoteScan(s: string)
    requires s == "\"ab"
    ensures Scan(true, s, 0) == [Token(Identifier, "ab")]
  {
    assert LiteralEnd(s, 3) == None;
    assert LiteralEnd(s, 2) == None;
    assert LiteralEnd(s, 1) == None;
    ScanUnclosedQuote(true, s, 0);
    assert s[1..3] == "ab";
    assert s[1..3] !in Keywords;
    ScanWord(true, s, 1, 2, false);
    assert Scan(true, s, 3) == [];
  }

  /** A quote that is never closed starts no literal: the text after it scans as usual. */
  lemma UnclosedQuoteSample(s: string)
    requires s == "\"ab"
    ensures Tokenize(TokenRegex, s, 0) == [Token(Identifier, "ab")]
  {
    UnclosedQuoteScan(s);
    TokenizeIsScan(true, s, 0);
  }

  lemma OpenCommentScan(s: string)
    requires s == "/*"
    ensures Scan(true, s, 0) == [Token(Operator, "/"), Token(Operator, "*")]
  {
    assert BlockCommentEnd(s, 2).None?;
    assert !StartsWith(s, 0, "//") by {
      assert s[1] == '*' && "//"[1] == '/';
    }
    assert MatchComment(s, 0).None?;
    ScanOperator(true, s, 0, 1);
    NotCommentAt(s, 1);
    ScanOperator(true, s, 1, 1);
    assert s[0..1] == "/" && s[1..2] == "*";
    assert Scan(true, s, 2) == [];
  }

  /** An unterminated block comment is the operators `/` and `*`. */
  lemma OpenCommentSample(s: string)
    requires s == "/*"
    ensures Tokenize(TokenRegex, s, 0) == [Token(Operator, "/"), Token(Operator, "*")]
  {
    OpenCommentScan(s);
    TokenizeIsScan(true, s, 0);
  }

  lemma UnmatchedScan(s: string)
    requires s == "@$?~'"
    ensures Scan(true, s, 0) == []
  {
    forall p | 0 <= p < 5 ensures Scan(true, s, p) == Scan(true, s, p + 1) {
      StartsNothing(s[p]);
      ScanNothing(true, s, p);
    }
    assert Scan(true, s, 0) == Scan(true, s, 1) == Scan(true, s, 2) == Scan(true, s, 3) == Scan(true, s, 4);
    assert Scan(true, s, 4) == Scan(true, s, 5) == [];
  }

  lemma StartsNothing(c: char)
    requires c == '@' || c == '$' || c == '?' || c == '~' || c == '\''
    ensures !IsSpace(c) && !IsWordChar(c) && !IsOperatorChar(c) && !IsPunctuator(c) && c != '"' && c != '.'
  {
  }

  /** Characters no group matches produce nothing. */
  lemma UnmatchedSample(s: string)
    requires s == "@$?~'"
    ensures Tokenize(TokenRegex, s, 0) == []
  {
    UnmatchedScan(s);
    TokenizeIsScan(true, s, 0);
  }

  lemma LineCommentHead(s: string)
    requires s == "x // y\n"
    ensures Scan(true, s, 0) == [Token(Identifier, "x"), Token(Whitespace, " ")] + Scan(true, s, 2)
  {
    assert s[0..1] !in Keywords;
    ScanWord(true, s, 0, 1, false);
    ScanSpaces(s, 1, 1);
    assert s[0..1] == "x" && s[1..2] == " ";
  }

  lemma LineCommentTail(s: string)
    requires s == "x // y\n"
    ensures Scan(true, s, 2) == [Token(Comment, "// y"), Token(Whitespace, "\n")]
  {
    assert StartsWith(s, 2, "//");
    RunLengthIs(s, 4, IsLineChar, 2);
    ScanComment(s, 2, 4);
    ScanSpaces(s, 6, 1);
    assert s[2..6] == "// y" && s[6..7] == "\n";
    assert Scan(true, s, 7) == [];
  }

  lemma LineCommentScan(s: string)
    requires s == "x // y\n"
    ensures Scan(true, s, 0)
         == [Token(Identifier, "x"), Token(Whitespace, " "), Token(Comment, "// y"), Token(Whitespace, "\n")]
  {
    LineCommentHead(s);
    LineCommentTail(s);
  }

  /** A line comment runs up to the line end; both it and the whitespace around it are then dropped. */
  lemma LineCommentSample(s: string)
    requires s == "x // y\n"
    ensures Tokenize(TokenRegex, s, 0)
         == [Token(Identifier, "x"), Token(Whitespace, " "), Token(Comment, "// y"), Token(Whitespace, "\n")]
    ensures Emitted(Tokenize(TokenRegex, s, 0)) == [Token(Identifier, "x")]
  {
    LineCommentScan(s);
    TokenizeIsScan(true, s, 0);
    KeptOfLineComment(Token(Identifier, "x"), Token(Whitespace, " "), Token(Comment, "// y"), Token(Whitespace, "\n"));
  }

  lemma KeptOfLineComment(a: Token, b: Token, c: Token, d: Token)
    requires !IsDiscarded(a.tokenType) && IsDiscarded(b.tokenType)
    requires IsDiscarded(c.tokenType) && IsDiscarded(d.tokenType)
    ensures Emitted([a, b, c, d]) == [a]
  {
    assert [d][1..] == [];
    assert Emitted([d]) == [];
    assert [c, d][1..] == [d];
    assert Emitted([c, d]) == [];
    assert [b, c, d][1..] == [c, d];
    assert Emitted([b, c, d]) == [];
    assert [a, b, c, d][1..] == [b, c, d];
  }

  lemma LegacySlashes(s: string)
    requires s == "// x"
    ensures Scan(false, s, 0) == [Token(Operator, "/"), Token(Operator, "/")] + Scan(false, s, 2)
  {
    ScanOperator(false, s, 0, 1);
    ScanOperator(false, s, 1, 1);
    assert s[0..1] == "/" && s[1..2] == "/";
  }

  lemma LegacyLineCommentScan(s: string)
    requires s == "// x"
    ensures Scan(false, s, 0) == [Token(Operator, "/"), Token(Operator, "/"), Token(Identifier, "x")]
  {
    LegacySlashes(s);
    ScanNothing(false, s, 2);
    assert s[3..4] !in Keywords;
    ScanWord(false, s, 3, 1, false);
    assert s[3..4] == "x";
    assert Scan(false, s, 4) == [];
  }

  /** The older grammar has no comment group: `// x` is two slashes and an identifier. */
  lemma LegacyLineCommentSample(s: string)
    requires s == "// x"
    ensures Tokenize(LegacyTokenRegex, s, 0)
         == [Token(Operator, "/"), Token(Operator, "/"), Token(Identifier, "x")]
  {
    LegacyLineCommentScan(s);
    TokenizeIsScan(false, s, 0);
  }

  // ---------------------------------------------------------------------------
  // The older lexer's driver input

  const ProgramText := "int x = 10; if (x > 5) { return x; }"

  /** The 36 characters of the driver input, one index at a time. */
  predicate ProgramChars(s: string)
  {
    |s| == 36
    && s[0] == 'i' && s[1] == 'n' && s[2] == 't' && s[3] == ' ' && s[4] == 'x' && s[5] == ' '
    && s[6] == '=' && s[7] == ' ' && s[8] == '1' && s[9] == '0' && s[10] == ';' && s[11] == ' '
    && s[12] == 'i' && s[13] == 'f' && s[14] == ' ' && s[15] == '(' && s[16] == 'x' && s[17] == ' '
    && s[18] == '>' && s[19] == ' ' && s[20] == '5' && s[21] == ')' && s[22] == ' ' && s[23] == '{'
    && s[24] == ' ' && s[25] == 'r' && s[26] == 'e' && s[27] == 't' && s[28] == 'u' && s[29] == 'r'
    && s[30] == 'n' && s[31] == ' ' && s[32] == 'x' && s[33] == ';' && s[34] == ' ' && s[35] == '}'
  }

  lemma ProgramToken1(s: string)
    requires |s| == 36
    requires s[0] == 'i' && s[1] == 'n' && s[2] == 't' && s[3] == ' '
    ensures Scan(false, s, 0) == [Token(Keyword, "int")] + Scan(false, s, 3)
  {
    assert s[0..3] == "int";
    assert s[0..3] == Keywords[5];
    ScanWord(false, s, 0, 3, true);
  }

  lemma ProgramToken2(s: string)
    requires |s| == 36
    requires s[2] == 't' && s[3] == ' ' && s[4] == 'x' && s[5] == ' '
    ensures Scan(false, s, 3) == [Token(Identifier, "x")] + Scan(false, s, 5)
  {
    assert s[4..5] == "x";
    ScanNothing(false, s, 3);
    assert s[4..5] !in Keywords;
    ScanWord(false, s, 4, 1, false);
  }

  lemma ProgramToken3(s: string)
    requires |s| == 36
    requires s[4] == 'x' && s[5] == ' ' && s[6] == '=' && s[7] == ' '
    ensures Scan(false, s, 5) == [Token(Operator, "=")] + Scan(false, s, 7)
  {
    assert s[6..7] == "=";
    ScanNothing(false, s, 5);
    ScanOperator(false, s, 6, 1);
  }

  lemma ProgramToken4(s: string)
    requires |s| == 36
    requires s[6] == '=' && s[7] == ' ' && s[8] == '1' && s[9] == '0' && s[10] == ';'
    ensures Scan(false, s, 7) == [Token(Constant, "10")] + Scan(false, s, 10)
  {
    assert s[8..10] == "10";
    ScanNothing(false, s, 7);
    RunLengthIs(s, 8, IsDigit, 2);
    assert MatchConstant(s, 8) == Some(2);
    ScanConstant(false, s, 8, 2);
  }

  lemma ProgramToken5(s: string)
    requires |s| == 36
    requires s[9] == '0' && s[10] == ';' && s[11] == ' '
    ensures Scan(false, s, 10) == [Token(Punctuator, ";")] + Scan(false, s, 11)
  {
    assert s[10..11] == ";";
    ScanPunctuator(false, s, 10);
  }

  lemma ProgramToken6(s: string)
    requires |s| == 36
    requires s[10] == ';' && s[11] == ' ' && s[12] == 'i' && s[13] == 'f' && s[14] == ' '
    ensures Scan(false, s, 11) == [Token(Keyword, "if")] + Scan(false, s, 14)
  {
    assert s[12..14] == "if";
    ScanNothing(false, s, 11);
    assert s[12..14] == Keywords[4];
    ScanWord(false, s, 12, 2, true);
  }

  lemma ProgramToken7(s: string)
    requires |s| == 36
    requires s[13] == 'f' && s[14] == ' ' && s[15] == '(' && s[16] == 'x'
    ensures Scan(false, s, 14) == [Token(Punctuator, "(")] + Scan(false, s, 16)
  {
    assert s[15..16] == "(";
    ScanNothing(false, s, 14);
    ScanPunctuator(false, s, 15);
  }

  lemma ProgramToken8(s: string)
    requires |s| == 36
    requires s[15] == '(' && s[16] == 'x' && s[17] == ' '
    ensures Scan(false, s, 16) == [Token(Identifier, "x")] + Scan(false, s, 17)
  {
    assert s[16..17] == "x";
    assert s[16..17] !in Keywords;
    ScanWord(false, s, 16, 1, false);
  }

  lemma ProgramToken9(s: string)
    requires |s| == 36
    requires s[16] == 'x' && s[17] == ' ' && s[18] == '>' && s[19] == ' '
    ensures Scan(false, s, 17) == [Token(Operator, ">")] + Scan(false, s, 19)
  {
    assert s[18..19] == ">";
    ScanNothing(false, s, 17);
    ScanOperator(false, s, 18, 1);
  }

  lemma ProgramToken10(s: string)
    requires |s| == 36
    requires s[18] == '>' && s[19] == ' ' && s[20] == '5' && s[21] == ')'
    ensures Scan(false, s, 19) == [Token(Constant, "5")] + Scan(false, s, 21)
  {
    assert s[20..21] == "5";
    ScanNothing(false, s, 19);
    RunLengthIs(s, 20, IsDigit, 1);
    assert MatchConstant(s, 20) == Some(1);
    ScanConstant(false, s, 20, 1);
  }

  lemma ProgramToken11(s: string)
    requires |s| == 36
    requires s[20] == '5' && s[21] == ')' && s[22] == ' '
    ensures Scan(false, s, 21) == [Token(Punctuator, ")")] + Scan(false, s, 22)
  {
    assert s[21..22] == ")";
    ScanPunctuator(false, s, 21);
  }

  lemma ProgramToken12(s: string)
    requires |s| == 36
    requires s[21] == ')' && s[22] == ' ' && s[23] == '{' && s[24] == ' '
    ensures Scan(false, s, 22) == [Token(Punctuator, "{")] + Scan(false, s, 24)
  {
    assert s[23..24] == "{";
    ScanNothing(false, s, 22);
    ScanPunctuator(false, s, 23);
  }

  lemma ProgramToken13(s: string)
    requires |s| == 36
    requires s[23] == '{' && s[24] == ' ' && s[25] == 'r' && s[26] == 'e' && s[27] == 't' && s[28] == 'u'
    requires s[29] == 'r' && s[30] == 'n' && s[31] == ' '
    ensures Scan(false, s, 24) == [Token(Keyword, "return")] + Scan(false, s, 31)
  {
    assert s[25..31] == "return";
    ScanNothing(false, s, 24);
    assert s[25..31] == Keywords[1];
    ScanWord(false, s, 25, 6, true);
  }

  lemma ProgramToken14(s: string)
    requires |s| == 36
    requires s[30] == 'n' && s[31] == ' ' && s[32] == 'x' && s[33] == ';'
    ensures Scan(false, s, 31) == [Token(Identifier, "x")] + Scan(false, s, 33)
  {
    assert s[32..33] == "x";
    ScanNothing(false, s, 31);
    assert s[32..33] !in Keywords;
    ScanWord(false, s, 32, 1, false);
  }

  lemma ProgramToken15(s: string)
    requires |s| == 36
    requires s[32] == 'x' && s[33] == ';' && s[34] == ' '
    ensures Scan(false, s, 33) == [Token(Punctuator, ";")] + Scan(false, s, 34)
  {
    assert s[33..34] == ";";
    ScanPunctuator(false, s, 33);
  }

  lemma ProgramToken16(s: string)
    requires |s| == 36
    requires s[33] == ';' && s[34] == ' ' && s[35] == '}'
    ensures Scan(false, s, 34) == [Token(Punctuator, "}")] + Scan(false, s, 36)
  {
    assert s[35..36] == "}";
    ScanNothing(false, s, 34);
    ScanPunctuator(false, s, 35);
  }

  lemma ProgramTokens1To4(s: string)
    requires ProgramChars(s)
    ensures Scan(false, s, 0) == [Token(Keyword, "int"), Token(Identifier, "x"), Token(Operator, "="), Token(Constant, "10")] + Scan(false, s, 10)
  {
    ProgramToken1(s);
    ProgramToken2(s);
    ProgramToken3(s);
    ProgramToken4(s);
  }

  lemma ProgramTokens5To8(s: string)
    requires ProgramChars(s)
    ensures Scan(false, s, 10) == [Token(Punctuator, ";"), Token(Keyword, "if"), Token(Punctuator, "("), Token(Identifier, "x")] + Scan(false, s, 17)
  {
    ProgramToken5(s);
    ProgramToken6(s);
    ProgramToken7(s);
    ProgramToken8(s);
  }

  lemma ProgramTokens9To12(s: string)
    requires ProgramChars(s)
    ensures Scan(false, s, 17) == [Token(Operator, ">"), Token(Constant, "5"), Token(Punctuator, ")"), Token(Punctuator, "{")] + Scan(false, s, 24)
  {
    ProgramToken9(s);
    ProgramToken10(s);
    ProgramToken11(s);
    ProgramToken12(s);
  }

  lemma ProgramTokens13To16(s: string)
    requires ProgramChars(s)
    ensures Scan(false, s, 24) == [Token(Keyword, "return"), Token(Identifier, "x"), Token(Punctuator, ";"), Token(Punctuator, "}")]
  {
    ProgramToken13(s);
    ProgramToken14(s);
    ProgramToken15(s);
    ProgramToken16(s);
    assert Scan(false, s, 36) == [];
  }

  /** The sixteen tokens the older lexer finds in its driver input, in scan order. */
  const ProgramTokens: seq<Token> := [
    Token(Keyword, "int"), Token(Identifier, "x"), Token(Operator, "="), Token(Constant, "10"),
    Token(Punctuator, ";"), Token(Keyword, "if"), Token(Punctuator, "("), Token(Identifier, "x"),
    Token(Operator, ">"), Token(Constant, "5"), Token(Punctuator, ")"), Token(Punctuator, "{"),
    Token(Keyword, "return"), Token(Identifier, "x"), Token(Punctuator, ";"), Token(Punctuator, "}")
  ]

  /** The chained steps: the whole driver input scans to the sixteen tokens. */
  lemma ProgramChain(s: string)
    requires ProgramChars(s)
    ensures Scan(false, s, 0) == ProgramTokens
  {
    ProgramTokens1To4(s);
    ProgramTokens5To8(s);
    ProgramTokens9To12(s);
    ProgramTokens13To16(s);
  }

  lemma ProgramScan(s: string)
    requires ProgramChars(s)
    ensures Tokenize(LegacyTokenRegex, s, 0) == ProgramTokens
  {
    ProgramChain(s);
    TokenizeIsScan(false, s, 0);
  }

  /** The driver input scans to sixteen tokens: whitespace is skipped, every other character belongs to a token. */
  lemma ProgramSample(s: string)
    requires s == ProgramText
    ensures Tokenize(LegacyTokenRegex, s, 0) == ProgramTokens
  {
    ProgramTextChars(s);
    ProgramScan(s);
  }

  /**
   * The current lexer on the same input: the whitespace it matches is
   * dropped, so it keeps the same sixteen tokens, and the printed total is 16.
   */
  lemma ProgramCountTotal(s: string)
    requires ProgramChars(s)
    ensures Emitted(Tokenize(TokenRegex, s, 0)) == ProgramTokens
    ensures TableTotal(Tally(Emitted(Tokenize(TokenRegex, s, 0)))) == 16
  {
    ProgramChain(s);
    assert forall j :: 0 <= j < |s| ==> s[j] != '/';
    VariantsAgree(s, 0);
    TokenizeIsScan(true, s, 0);
    TallyTotal(ProgramTokens);
  }

  lemma ProgramCountSample(s: string)
    requires s == ProgramText
    ensures TableTotal(Tally(Emitted(Tokenize(TokenRegex, s, 0)))) == 16
  {
    ProgramTextChars(s);
    ProgramCountTotal(s);
  }

  /** The lists the older lexer builds for its driver input, in `values()` order. */
  const ProgramLists: Lists := [
    (Keyword, [Token(Keyword, "int"), Token(Keyword, "if"), Token(Keyword, "return")]),
    (Identifier, [Token(Identifier, "x"), Token(Identifier, "x"), Token(Identifier, "x")]),
    (Operator, [Token(Operator, "="), Token(Operator, ">")]),
    (Constant, [Token(Constant, "10"), Token(Constant, "5")]),
    (Literal, []),
    (Punctuator, [Token(Punctuator, ";"), Token(Punctuator, "("), Token(Punctuator, ")"),
                  Token(Punctuator, "{"), Token(Punctuator, ";"), Token(Punctuator, "}")]),
    (Whitespace, []),
    (Comment, [])
  ]

  /** A token as a list of its own, if it has the category, else nothing. */
  function Keep(tok: Token, t: TokenType): seq<Token>
  {
    if tok.tokenType == t then [tok] else []
  }

  /** Filtering sixteen tokens, one token at a time: the first eight. */
  lemma OfTypeFirstHalf(p: seq<Token>, t: TokenType)
    requires |p| == 16
    ensures OfType(p[..8], t) == Keep(p[0], t) + Keep(p[1], t) + Keep(p[2], t) + Keep(p[3], t) + Keep(p[4], t) + Keep(p[5], t) + Keep(p[6], t) + Keep(p[7], t)
  {
    assert p[..0] == [];
    assert p[..1] == p[..0] + [p[0]];
    OfTypeSnoc(p[..0], p[0], t);
    assert p[..2] == p[..1] + [p[1]];
    OfTypeSnoc(p[..1], p[1], t);
    assert p[..3] == p[..2] + [p[2]];
    OfTypeSnoc(p[..2], p[2], t);
    assert p[..4] == p[..3] + [p[3]];
    OfTypeSnoc(p[..3], p[3], t);
    assert p[..5] == p[..4] + [p[4]];
    OfTypeSnoc(p[..4], p[4], t);
    assert p[..6] == p[..5] + [p[5]];
    OfTypeSnoc(p[..5], p[5], t);
    assert p[..7] == p[..6] + [p[6]];
    OfTypeSnoc(p[..6], p[6], t);
    assert p[..8] == p[..7] + [p[7]];
    OfTypeSnoc(p[..7], p[7], t);
  }

  /** ... and the last eight. */
  lemma OfTypeSecondHalf(p: seq<Token>, t: TokenType)
    requires |p| == 16
    ensures OfType(p, t) == OfType(p[..8], t) + Keep(p[8], t) + Keep(p[9], t) + Keep(p[10], t) + Keep(p[11], t) + Keep(p[12], t) + Keep(p[13], t) + Keep(p[14], t) + Keep(p[15], t)
  {
    assert p[..9] == p[..8] + [p[8]];
    OfTypeSnoc(p[..8], p[8], t);
    assert p[..10] == p[..9] + [p[9]];
    OfTypeSnoc(p[..9], p[9], t);
    assert p[..11] == p[..10] + [p[10]];
    OfTypeSnoc(p[..10], p[10], t);
    assert p[..12] == p[..11] + [p[11]];
    OfTypeSnoc(p[..11], p[11], t);
    assert p[..13] == p[..12] + [p[12]];
    OfTypeSnoc(p[..12], p[12], t);
    assert p[..14] == p[..13] + [p[13]];
    OfTypeSnoc(p[..13], p[13], t);
    assert p[..15] == p[..14] + [p[14]];
    OfTypeSnoc(p[..14], p[14], t);
    assert p[..16] == p[..15] + [p[15]];
    OfTypeSnoc(p[..15], p[15], t);
    assert p[..16] == p;
  }

  lemma ProgramOfKeyword()
    ensures OfType(ProgramTokens, Keyword) == ProgramLists[0].1
  {
    OfTypeFirstHalf(ProgramTokens, Keyword);
    OfTypeSecondHalf(ProgramTokens, Keyword);
  }

  lemma ProgramOfIdentifier()
    ensures OfType(ProgramTokens, Identifier) == ProgramLists[1].1
  {
    OfTypeFirstHalf(ProgramTokens, Identifier);
    OfTypeSecondHalf(ProgramTokens, Identifier);
  }

  lemma ProgramOfOperator()
    ensures OfType(ProgramTokens, Operator) == ProgramLists[2].1
  {
    OfTypeFirstHalf(ProgramTokens, Operator);
    OfTypeSecondHalf(ProgramTokens, Operator);
  }

  lemma ProgramOfConstant()
    ensures OfType(ProgramTokens, Constant) == ProgramLists[3].1
  {
    OfTypeFirstHalf(ProgramTokens, Constant);
    OfTypeSecondHalf(ProgramTokens, Constant);
  }

  lemma ProgramOfLiteral()
    ensures OfType(ProgramTokens, Literal) == ProgramLists[4].1
  {
    OfTypeFirstHalf(ProgramTokens, Literal);
    OfTypeSecondHalf(ProgramTokens, Literal);
  }

  lemma ProgramOfPunctuator()
    ensures OfType(ProgramTokens, Punctuator) == ProgramLists[5].1
  {
    OfTypeFirstHalf(ProgramTokens, Punctuator);
    OfTypeSecondHalf(ProgramTokens, Punctuator);
  }

  lemma ProgramOfWhitespace()
    ensures OfType(ProgramTokens, Whitespace) == ProgramLists[6].1
  {
    OfTypeFirstHalf(ProgramTokens, Whitespace);
    OfTypeSecondHalf(ProgramTokens, Whitespace);
  }

  lemma ProgramOfComment()
    ensures OfType(ProgramTokens, Comment) == ProgramLists[7].1
  {
    OfTypeFirstHalf(ProgramTokens, Comment);
    OfTypeSecondHalf(ProgramTokens, Comment);
  }

  /** The driver input's tokens of each category, in scan order. */
  lemma ProgramOfType(t: TokenType)
    ensures OfType(ProgramTokens, t) == ProgramLists[Ordinal(t)].1
  {
    match t
    case Keyword => ProgramOfKeyword();
    case Identifier => ProgramOfIdentifier();
    case Operator => ProgramOfOperator();
    case Constant => ProgramOfConstant();
    case Literal => ProgramOfLiteral();
    case Punctuator => ProgramOfPunctuator();
    case Whitespace => ProgramOfWhitespace();
    case Comment => ProgramOfComment();
  }

  /** Filing the sixteen tokens gives those lists, which hold sixteen tokens in all. */
  lemma ProgramGroups()
    ensures Group(ProgramTokens) == ProgramLists
    ensures TotalLength(Group(ProgramTokens)) == 16
  {
    forall k | 0 <= k < |AllTokenTypes|
      ensures Group(ProgramTokens)[k] == ProgramLists[k]
    {
      GroupAt(ProgramTokens, k);
      ProgramOfType(AllTokenTypes[k]);
      OrdinalInverse(k);
    }
    GroupTotal(ProgramTokens);
  }

  /** What `analyze()` returns for the driver input: the lists above. */
  lemma ProgramListsSample(s: string)
    requires s == ProgramText
    ensures Group(Tokenize(LegacyTokenRegex, s, 0)) == ProgramLists
    ensures TotalLength(Group(Tokenize(LegacyTokenRegex, s, 0))) == 16
  {
    ProgramSample(s);
    ProgramGroups();
  }

  /** The driver input has the characters `ProgramChars` lists. */
  lemma ProgramTextChars(s: string)
    requires s == ProgramText
    ensures ProgramChars(s)
  {
    ProgramTextChars0(s);
    ProgramTextChars3(s);
    ProgramTextChars6(s);
    ProgramTextChars9(s);
    ProgramTextChars12(s);
    ProgramTextChars18(s);
    ProgramTextChars24(s);
  }

  lemma ProgramTextChars0(s: string)
    requires s == ProgramText
    ensures s[0] == 'i' && s[1] == 'n' && s[2] == 't'
  {
  }

  lemma ProgramTextChars3(s: string)
    requires s == ProgramText
    ensures s[3] == ' ' && s[4] == 'x' && s[5] == ' '
  {
  }

  lemma ProgramTextChars6(s: string)
    requires s == ProgramText
    ensures s[6] == '=' && s[7] == ' ' && s[8] == '1'
  {
  }

  lemma ProgramTextChars9(s: string)
    requires s == ProgramText
    ensures s[9] == '0' && s[10] == ';' && s[11] == ' '
  {
  }

  lemma ProgramTextChars12(s: string)
    requires s == ProgramText
    ensures s[12] == 'i' && s[13] == 'f' && s[14] == ' ' && s[15] == '(' && s[16] == 'x' && s[17] == ' '
  {
  }

  lemma ProgramTextChars18(s: string)
    requires s == ProgramText
    ensures s[18] == '>' && s[19] == ' ' && s[20] == '5' && s[21] == ')' && s[22] == ' ' && s[23] == '{'
  {
  }

  lemma ProgramTextChars24(s: string)
    requires s == ProgramText
    ensures s[24] == ' ' && s[25] == 'r' && s[26] == 'e' && s[27] == 't' && s[28] == 'u' && s[29] == 'r' && s[30] == 'n' && s[31] == ' ' && s[32] == 'x' && s[33] == ';' && s[34] == ' ' && s[35] == '}'
  {
  }
}
