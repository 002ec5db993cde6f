/**
 * What the alternation order of `TOKEN_REGEX` decides, stated without it:
 * a classifier that looks at the character under the scan position, proved
 * to agree with the ordered alternation for both lexer variants.
 */
module GrammarFacts {
  import opened Wrappers
  import opened Tokens
  import opened Grammar

  /** The characters an operator can start with. */
  predicate IsOperatorChar(c: char)
  {
    c == '+' || c == '-' || c == '*' || c == '/' || c == '%' || c == '=' || c == '!'
    || c == '<' || c == '>' || c == '&' || c == '|' || c == '^'
  }

  /**
   * The two-character operators the alternation can produce: an operator
   * character followed by `=`, or one of `++`, `--`, `&&`, `||`.
   */
  predicate IsTwoCharOperator(c: char, d: char)
  {
    (IsOperatorChar(c) && d == '=') || (c == d && (c == '+' || c == '-' || c == '&' || c == '|'))
  }

  // ---------------------------------------------------------------------------
  // Operators

  lemma {:induction false} FirstOperatorAt(s: string, i: nat, alts: seq<OperatorAlternative>, k: nat)
    requires i <= |s| && k < |alts|
    requires forall v :: 0 <= v < k ==> !StartsWith(s, i, alts[v].spelling)
    requires StartsWith(s, i, alts[k].spelling)
    ensures FirstOperator(s, i, alts)
         == Some(var n := |alts[k].spelling|;
                 if alts[k].optionalEquals && i + n < |s| && s[i + n] == '=' then n + 1 else n)
  {
    if k > 0 {
      assert !StartsWith(s, i, alts[0].spelling);
      forall v | 0 <= v < k - 1 ensures !StartsWith(s, i, alts[1..][v].spelling) {
        assert alts[1..][v] == alts[v + 1];
      }
      FirstOperatorAt(s, i, alts[1..], k - 1);
    }
  }

  /** What occurring at i tells about the first two characters of a spelling. */
  lemma StartsWithHead(s: string, i: nat, w: string)
    ensures StartsWith(s, i, w) && |w| >= 1 ==> s[i] == w[0]
    ensures StartsWith(s, i, w) && |w| >= 2 ==> i + 1 < |s| && s[i + 1] == w[1]
  {
    if StartsWith(s, i, w) && |w| >= 1 {
      assert s[i + 0] == w[0];
      if |w| >= 2 { assert s[i + 1] == w[1]; }
    }
  }

  /** The alternative at index k wins, given that no earlier spelling can occur at i. */
  lemma OperatorWinner(s: string, i: nat, k: nat)
    requires i < |s| && k < |OperatorAlternatives|
    requires forall v :: 0 <= v < k ==>
               OperatorAlternatives[v].spelling[0] != s[i]
               || (|OperatorAlternatives[v].spelling| >= 2
                   && (i + 1 >= |s| || OperatorAlternatives[v].spelling[1] != s[i + 1]))
    requires StartsWith(s, i, OperatorAlternatives[k].spelling)
    ensures MatchOperator(s, i)
         == Some(var a := OperatorAlternatives[k]; var n := |a.spelling|;
                 if a.optionalEquals && i + n < |s| && s[i + n] == '=' then n + 1 else n)
  {
    var A := OperatorAlternatives;
    forall v | 0 <= v < k ensures !StartsWith(s, i, A[v].spelling) {
      StartsWithHead(s, i, A[v].spelling);
    }
    FirstOperatorAt(s, i, A, k);
  }

  // One lemma per operator character: the winning alternative is the first
  // whose spelling occurs, and every earlier one starts differently.

  lemma OperatorStar(s: string, i: nat)
    requires i < |s| && s[i] == '*'
    ensures MatchOperator(s, i) == Some(OperatorLength(s, i))
  {
    OperatorWinner(s, i, 4);
  }

  lemma OperatorSlash(s: string, i: nat)
    requires i < |s| && s[i] == '/'
    ensures MatchOperator(s, i) == Some(OperatorLength(s, i))
  {
    OperatorWinner(s, i, 5);
  }

  lemma OperatorPercent(s: string, i: nat)
    requires i < |s| && s[i] == '%'
    ensures MatchOperator(s, i) == Some(OperatorLength(s, i))
  {
    OperatorWinner(s, i, 6);
  }

  lemma OperatorAssign(s: string, i: nat)
    requires i < |s| && s[i] == '='
    ensures MatchOperator(s, i) == Some(OperatorLength(s, i))
  {
    OperatorWinner(s, i, 7);
  }

  lemma OperatorBang(s: string, i: nat)
    requires i < |s| && s[i] == '!'
    ensures MatchOperator(s, i) == Some(OperatorLength(s, i))
  {
    OperatorWinner(s, i, 8);
  }

  lemma OperatorLess(s: string, i: nat)
    requires i < |s| && s[i] == '<'
    ensures MatchOperator(s, i) == Some(OperatorLength(s, i))
  {
    OperatorWinner(s, i, 9);
  }

  lemma OperatorGreater(s: string, i: nat)
    requires i < |s| && s[i] == '>'
    ensures MatchOperator(s, i) == Some(OperatorLength(s, i))
  {
    OperatorWinner(s, i, 10);
  }

  lemma OperatorCaret(s: string, i: nat)
    requires i < |s| && s[i] == '^'
    ensures MatchOperator(s, i) == Some(OperatorLength(s, i))
  {
    OperatorWinner(s, i, 13);
  }

  lemma OperatorPlus(s: string, i: nat)
    requires i < |s| && s[i] == '+'
    ensures MatchOperator(s, i) == Some(OperatorLength(s, i))
  {
    if i + 1 < |s| && s[i + 1] == '+' {
      OperatorWinner(s, i, 0);
    } else {
      OperatorWinner(s, i, 2);
    }
  }

  lemma OperatorMinus(s: string, i: nat)
    requires i < |s| && s[i] == '-'
    ensures MatchOperator(s, i) == Some(OperatorLength(s, i))
  {
    if i + 1 < |s| && s[i + 1] == '-' {
      OperatorWinner(s, i, 1);
    } else {
      OperatorWinner(s, i, 3);
    }
  }

  lemma OperatorAmpersand(s: string, i: nat)
    requires i < |s| && s[i] == '&'
    ensures MatchOperator(s, i) == Some(OperatorLength(s, i))
  {
    if i + 1 < |s| && s[i + 1] == '&' {
      OperatorWinner(s, i, 11);
    } else if i + 1 < |s| && s[i + 1] == '=' {
      OperatorWinner(s, i, 16);
    } else {
      OperatorWinner(s, i, 18);
    }
  }

  lemma OperatorBar(s: string, i: nat)
    requires i < |s| && s[i] == '|'
    ensures MatchOperator(s, i) == Some(OperatorLength(s, i))
  {
    if i + 1 < |s| && s[i + 1] == '|' {
      OperatorWinner(s, i, 12);
    } else if i + 1 < |s| && s[i + 1] == '=' {
      OperatorWinner(s, i, 17);
    } else {
      OperatorWinner(s, i, 19);
    }
  }

  /** No alternative occurs: the alternation fails. */
  lemma {:induction false} FirstOperatorNone(s: string, i: nat, alts: seq<OperatorAlternative>)
    requires i <= |s|
    requires forall v :: 0 <= v < |alts| ==> !StartsWith(s, i, alts[v].spelling)
    ensures FirstOperator(s, i, alts).None?
  {
    if alts != [] {
      assert !StartsWith(s, i, alts[0].spelling);
      forall v | 0 <= v < |alts| - 1 ensures !StartsWith(s, i, alts[1..][v].spelling) {
        assert alts[1..][v] == alts[v + 1];
      }
      FirstOperatorNone(s, i, alts[1..]);
    }
  }

  lemma OperatorTableNone(s: string, i: nat)
    requires i < |s| && !IsOperatorChar(s[i])
    ensures MatchOperator(s, i).None?
  {
    var A := OperatorAlternatives;
    forall v | 0 <= v < |A| ensures !StartsWith(s, i, A[v].spelling) {
      StartsWithHead(s, i, A[v].spelling);
      assert IsOperatorChar(A[v].spelling[0]);
    }
    FirstOperatorNone(s, i, A);
  }

  /**
   * The operator alternation read as a table: an operator is one or two
   * characters long, and two exactly when the pair is an operator character
   * followed by `=`, or `++`, `--`, `&&`, `||`. Because `<=?` is written before
   * `<<=?` (and `>=?` before `>>=?`), the shift operators are never produced.
   */
  lemma OperatorTable(s: string, i: nat)
    requires i < |s|
    ensures MatchOperator(s, i)
         == if IsOperatorChar(s[i]) then Some(OperatorLength(s, i)) else None
  {
    match s[i]
    case '+' => OperatorPlus(s, i);
    case '-' => OperatorMinus(s, i);
    case '*' => OperatorStar(s, i);
    case '/' => OperatorSlash(s, i);
    case '%' => OperatorPercent(s, i);
    case '=' => OperatorAssign(s, i);
    case '!' => OperatorBang(s, i);
    case '<' => OperatorLess(s, i);
    case '>' => OperatorGreater(s, i);
    case '&' => OperatorAmpersand(s, i);
    case '|' => OperatorBar(s, i);
    case '^' => OperatorCaret(s, i);
    case _ => OperatorTableNone(s, i);
  }

  /** No operator token is a shift: `<<`, `>>`, `<<=` and `>>=` come out as shorter operators. */
  lemma NoShiftOperators(s: string, i: nat)
    requires i < |s|
    requires MatchOperator(s, i).Some?
    ensures s[i..i + MatchOperator(s, i).value] !in {"<<", ">>", "<<=", ">>="}
  {
    OperatorTable(s, i);
    var n := MatchOperator(s, i).value;
    assert n <= 2;
    assert n == 2 ==> s[i..i + n] == [s[i], s[i + 1]];
  }

  // ---------------------------------------------------------------------------
  // Keywords

  /** Every keyword is a non-empty word. */
  lemma KeywordsAreWords()
    ensures forall w :: w in Keywords ==> IsWord(w)
  {
    assert IsWord("case") && IsWord("return") && IsWord("break") && IsWord("void") && IsWord("if");
    assert IsWord("int") && IsWord("float") && IsWord("do") && IsWord("else") && IsWord("while");
  }

  predicate IsWord(w: string)
  {
    |w| >= 1 && forall j :: 0 <= j < |w| ==> IsWordChar(w[j])
  }

  /** The maximal word starting at i: an identifier start followed by word characters. */
  function WordLength(s: string, i: nat): (n: nat)
    requires i < |s|
    ensures i + n <= |s|
  {
    1 + RunLength(s, i + 1, IsWordChar)
  }

  /** A word followed by `\b` at an identifier start is the whole maximal word. */
  lemma WordEndsAtBoundary(s: string, i: nat, m: nat)
    requires i < |s| && IsIdentifierStart(s[i])
    requires i + m <= |s| && IsWord(s[i..i + m]) && IsBoundary(s, i + m)
    ensures m == WordLength(s, i)
  {
    RunLengthSpec(s, i + 1, IsWordChar);
  }

  lemma KeywordWordEnds(s: string, i: nat, m: nat, kws: seq<string>)
    requires i < |s| && IsIdentifierStart(s[i])
    requires forall w :: w in kws ==> IsWord(w)
    requires i + m <= |s| && s[i..i + m] in kws && IsBoundary(s, i + m)
    ensures m == WordLength(s, i)
  {
    WordEndsAtBoundary(s, i, m);
  }

  lemma KeywordNotMissed(s: string, i: nat, kws: seq<string>)
    requires i < |s| && IsIdentifierStart(s[i])
    requires FirstKeyword(s, i, kws).None?
    ensures s[i..i + WordLength(s, i)] !in kws
  {
    var n := WordLength(s, i);
    BoundaryAfterWord(s, i);
    assert StartsWith(s, i, s[i..i + n]);
  }

  lemma BoundaryAfterWord(s: string, i: nat)
    requires i < |s| && IsIdentifierStart(s[i])
    ensures IsBoundary(s, i + WordLength(s, i))
  {
    var n := WordLength(s, i);
    RunLengthSpec(s, i + 1, IsWordChar);
    assert IsWordChar(s[i + n - 1]);
  }

  /**
   * `\b(case|...|while)\b` matches at an identifier start exactly when there
   * is a boundary before it and the whole maximal word is a keyword: `int` is
   * a keyword, `integer` and `double` are not, and neither is `int` right
   * after a digit.
   */
  lemma KeywordIsWholeWord(s: string, i: nat)
    requires i < |s| && IsIdentifierStart(s[i])
    ensures MatchKeyword(s, i)
         == if IsBoundary(s, i) && s[i..i + WordLength(s, i)] in Keywords then Some(WordLength(s, i)) else None
  {
    KeywordsAreWords();
    FirstKeywordWholeWord(s, i, Keywords);
  }

  /** The keyword search over any list of words finds exactly the maximal word, if it is listed. */
  lemma FirstKeywordWholeWord(s: string, i: nat, kws: seq<string>)
    requires i < |s| && IsIdentifierStart(s[i])
    requires forall w :: w in kws ==> IsWord(w)
    ensures FirstKeyword(s, i, kws)
         == if s[i..i + WordLength(s, i)] in kws then Some(WordLength(s, i)) else None
  {
    var r := FirstKeyword(s, i, kws);
    if r.Some? {
      KeywordWordEnds(s, i, r.value, kws);
    } else {
      KeywordNotMissed(s, i, kws);
    }
  }

  // ---------------------------------------------------------------------------
  // A classifier that reads the character under the scan position

  /**
   * The category and length of the token starting at i, decided by the
   * character there. `discards` selects the grammar with whitespace and
   * comment groups. This reads the alternation order off as rules: a comment
   * beats the `/` operator, a keyword needs whole-word boundaries, a sign is
   * always an operator, a dot followed by a digit starts a constant, and a
   * character that starts nothing belongs to no token.
   */
  function Classify(discards: bool, s: string, i: nat): Option<Hit>
    requires i < |s|
  {
    var c := s[i];
    if IsSpace(c) then
      if discards then Some(Hit(Whitespace, RunLength(s, i, IsSpace))) else None
    else if discards && MatchComment(s, i).Some? then
      Some(Hit(Comment, MatchComment(s, i).value))
    else if IsIdentifierStart(c) then
      Some(WordHit(s, i))
    else if IsOperatorChar(c) then
      Some(Hit(Operator, OperatorLength(s, i)))
    else if IsDigit(c) || (c == '.' && i + 1 < |s| && IsDigit(s[i + 1])) then
      Some(Hit(Constant, MatchConstant(s, i).value))
    else
      OtherHit(s, i)
  }

  /** The whole maximal word: a keyword when it is listed and starts at a boundary, else an identifier. */
  function WordHit(s: string, i: nat): Hit
    requires i < |s|
  {
    var n := WordLength(s, i);
    Hit(if IsBoundary(s, i) && s[i..i + n] in Keywords then Keyword else Identifier, n)
  }

  /** Two characters for an operator pair, otherwise one. */
  function OperatorLength(s: string, i: nat): nat
    requires i < |s|
  {
    if i + 1 < |s| && IsTwoCharOperator(s[i], s[i + 1]) then 2 else 1
  }

  /** A punctuator, a complete string literal, or nothing. */
  function OtherHit(s: string, i: nat): Option<Hit>
    requires i < |s|
  {
    if IsPunctuator(s[i]) then Some(Hit(Punctuator, 1))
    else if s[i] == '"' && LiteralEnd(s, i + 1).Some? then Some(Hit(Literal, LiteralEnd(s, i + 1).value - i))
    else None
  }

  // ---------------------------------------------------------------------------
  // Facts about single groups at one character

  /** Every listed word is non-empty and starts like an identifier. */
  predicate StartLikeIdentifiers(kws: seq<string>)
  {
    forall v :: 0 <= v < |kws| ==> |kws[v]| >= 1 && IsIdentifierStart(kws[v][0])
  }

  /** No keyword starts with anything but a letter or underscore. */
  lemma KeywordsStartWithLetters()
    ensures StartLikeIdentifiers(Keywords)
  {
  }

  /** No listed word can be spelled at a character that starts none of them. */
  lemma {:induction false} FirstKeywordNone(s: string, i: nat, kws: seq<string>)
    requires i < |s| && !IsIdentifierStart(s[i])
    requires StartLikeIdentifiers(kws)
    ensures FirstKeyword(s, i, kws).None?
  {
    if kws != [] {
      StartsWithHead(s, i, kws[0]);
      assert forall v :: 0 <= v < |kws| - 1 ==> kws[1..][v] == kws[v + 1];
      FirstKeywordNone(s, i, kws[1..]);
    }
  }

  /** Neither word group matches at a character that cannot start an identifier. */
  lemma NoWordAt(s: string, i: nat)
    requires i < |s| && !IsIdentifierStart(s[i])
    ensures MatchKeyword(s, i).None? && MatchIdentifier(s, i).None?
  {
    NoKeywordAt(s, i);
  }

  /** The keyword group needs a letter or underscore under the scan position. */
  lemma NoKeywordAt(s: string, i: nat)
    requires i < |s| && !IsIdentifierStart(s[i])
    ensures MatchKeyword(s, i).None?
  {
    KeywordsStartWithLetters();
    FirstKeywordNone(s, i, Keywords);
  }

  /** A sign, a digit or a dot is needed for a constant. */
  lemma MatchConstantStarts(s: string, i: nat)
    requires i < |s|
    ensures MatchConstant(s, i).Some? ==>
              IsDigit(s[i]) || s[i] == '.' || s[i] == '+' || s[i] == '-'
    ensures IsDigit(s[i]) || (s[i] == '.' && i + 1 < |s| && IsDigit(s[i + 1])) ==> MatchConstant(s, i).Some?
    ensures s[i] == '.' && !(i + 1 < |s| && IsDigit(s[i + 1])) ==> MatchConstant(s, i).None?
  {
  }

  /** Trying a grammar is trying its first group, then the rest. */
  lemma MatchAtCons(t: TokenType, rest: seq<TokenType>, s: string, i: nat)
    requires i <= |s|
    ensures MatchAt([t] + rest, s, i)
         == match MatchGroup(t, s, i) case Some(n) => Some(Hit(t, n)) case None => MatchAt(rest, s, i)
  {
    assert ([t] + rest)[1..] == rest;
  }

  /** The older grammar written out as the chain of its six groups. */
  lemma LegacyAlternation(s: string, i: nat)
    requires i <= |s|
    ensures MatchAt(LegacyTokenRegex, s, i)
         == if MatchKeyword(s, i).Some? then Some(Hit(Keyword, MatchKeyword(s, i).value))
            else if MatchIdentifier(s, i).Some? then Some(Hit(Identifier, MatchIdentifier(s, i).value))
            else if MatchOperator(s, i).Some? then Some(Hit(Operator, MatchOperator(s, i).value))
            else if MatchConstant(s, i).Some? then Some(Hit(Constant, MatchConstant(s, i).value))
            else if MatchLiteral(s, i).Some? then Some(Hit(Literal, MatchLiteral(s, i).value))
            else if MatchPunctuator(s, i).Some? then Some(Hit(Punctuator, 1))
            else None
  {
    var g5 := [Punctuator] + [];
    var g4 := [Literal] + g5;
    var g3 := [Constant] + g4;
    var g2 := [Operator] + g3;
    var g1 := [Identifier] + g2;
    assert LegacyTokenRegex == [Keyword] + g1;
    MatchAtCons(Keyword, g1, s, i);
    MatchAtCons(Identifier, g2, s, i);
    MatchAtCons(Operator, g3, s, i);
    MatchAtCons(Constant, g4, s, i);
    MatchAtCons(Literal, g5, s, i);
    MatchAtCons(Punctuator, [], s, i);
  }

  /** The current grammar is whitespace, then comments, then the older grammar. */
  lemma CurrentAlternation(s: string, i: nat)
    requires i <= |s|
    ensures MatchAt(TokenRegex, s, i)
         == if MatchWhitespace(s, i).Some? then Some(Hit(Whitespace, MatchWhitespace(s, i).value))
            else if MatchComment(s, i).Some? then Some(Hit(Comment, MatchComment(s, i).value))
            else MatchAt(LegacyTokenRegex, s, i)
  {
    var g1 := [Comment] + LegacyTokenRegex;
    assert TokenRegex == [Whitespace] + g1;
    MatchAtCons(Whitespace, g1, s, i);
    MatchAtCons(Comment, LegacyTokenRegex, s, i);
  }

  // ---------------------------------------------------------------------------
  // The older grammar, case by case

  lemma LegacyWord(s: string, i: nat)
    requires i < |s| && IsIdentifierStart(s[i])
    ensures MatchAt(LegacyTokenRegex, s, i) == Some(WordHit(s, i))
  {
    LegacyAlternation(s, i);
    KeywordIsWholeWord(s, i);
  }

  lemma LegacyOperator(s: string, i: nat)
    requires i < |s| && IsOperatorChar(s[i])
    ensures MatchAt(LegacyTokenRegex, s, i) == Some(Hit(Operator, OperatorLength(s, i)))
  {
    LegacyAlternation(s, i);
    NoWordAt(s, i);
    OperatorTable(s, i);
  }

  lemma LegacyConstant(s: string, i: nat)
    requires i < |s| && (IsDigit(s[i]) || (s[i] == '.' && i + 1 < |s| && IsDigit(s[i + 1])))
    ensures MatchConstant(s, i).Some?
    ensures MatchAt(LegacyTokenRegex, s, i) == Some(Hit(Constant, MatchConstant(s, i).value))
  {
    LegacyAlternation(s, i);
    NoWordAt(s, i);
    OperatorTableNone(s, i);
    MatchConstantStarts(s, i);
  }

  /** Any other character: no word, no operator, no constant; a punctuator, a string literal or nothing. */
  lemma LegacyOther(s: string, i: nat)
    requires i < |s| && !IsIdentifierStart(s[i]) && !IsOperatorChar(s[i])
    requires !(IsDigit(s[i]) || (s[i] == '.' && i + 1 < |s| && IsDigit(s[i + 1])))
    ensures MatchAt(LegacyTokenRegex, s, i) == OtherHit(s, i)
  {
    LegacyAlternation(s, i);
    NoWordAt(s, i);
    OperatorTableNone(s, i);
    MatchConstantStarts(s, i);
  }

  /** The ordered alternation of the older lexer agrees with the classifier everywhere. */
  lemma LegacyClassify(s: string, i: nat)
    requires i < |s|
    ensures MatchAt(LegacyTokenRegex, s, i) == Classify(false, s, i)
  {
    var c := s[i];
    if IsIdentifierStart(c) {
      LegacyWord(s, i);
    } else if IsOperatorChar(c) {
      LegacyOperator(s, i);
    } else if IsDigit(c) || (c == '.' && i + 1 < |s| && IsDigit(s[i + 1])) {
      LegacyConstant(s, i);
    } else {
      LegacyOther(s, i);
    }
  }

  /** The ordered alternation of the current lexer agrees with the classifier everywhere. */
  lemma CurrentClassify(s: string, i: nat)
    requires i < |s|
    ensures MatchAt(TokenRegex, s, i) == Classify(true, s, i)
  {
    CurrentAlternation(s, i);
    if !IsSpace(s[i]) && MatchComment(s, i).None? {
      LegacyClassify(s, i);
    }
  }

  /** Every classified token is non-empty and lies within the text; the older grammar has no discarded groups. */
  lemma ClassifyBounds(discards: bool, s: string, i: nat)
    requires i < |s|
    ensures var r := Classify(discards, s, i);
            r.Some? ==> 1 <= r.value.length && i + r.value.length <= |s|
    ensures var r := Classify(discards, s, i);
            r.Some? && !discards ==> r.value.kind != Whitespace && r.value.kind != Comment
  {
  }
}
