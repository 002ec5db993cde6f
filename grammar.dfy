/**
 * The lexer's regular expression `TOKEN_REGEX`, one matcher per named group,
 * and the `Matcher.find()` scan over it.
 *
 * Each group matcher returns the length of the text the group matches at a
 * position (Java's backtracking choice of it), or None. A grammar is the list of
 * its named groups in written order; at a position the first group that matches
 * wins, whether or not a later group would match more text.
 */
module Grammar {
  import opened Wrappers
  import opened Tokens

  /** The current lexer's alternation: whitespace and comments first, then the six emitted categories. */
  const TokenRegex: seq<TokenType> :=
    [Whitespace, Comment, Keyword, Identifier, Operator, Constant, Literal, Punctuator]

  /** The older lexer's alternation: the same groups without whitespace and comments. */
  const LegacyTokenRegex: seq<TokenType> :=
    [Keyword, Identifier, Operator, Constant, Literal, Punctuator]

  // ---------------------------------------------------------------------------
  // Character classes

  /** `\s`: space, tab, newline, vertical tab, form feed, carriage return. */
  predicate IsSpace(c: char)
  {
    c == ' ' || c == '\t' || c == '\n' || c == '\U{B}' || c == '\U{C}' || c == '\r'
  }

  /** The line terminators that `.` does not match. */
  predicate IsLineTerminator(c: char)
  {
    c == '\n' || c == '\r' || c == '\U{85}' || c == '\U{2028}' || c == '\U{2029}'
  }

  /** `.`: any character but a line terminator. */
  predicate IsLineChar(c: char)
  {
    !IsLineTerminator(c)
  }

  /** `\d` */
  predicate IsDigit(c: char)
  {
    '0' <= c <= '9'
  }

  /** `[a-zA-Z_]` */
  predicate IsIdentifierStart(c: char)
  {
    'a' <= c <= 'z' || 'A' <= c <= 'Z' || c == '_'
  }

  /** `[a-zA-Z0-9_]`, which is also what `\b` counts as a word character. */
  predicate IsWordChar(c: char)
  {
    IsIdentifierStart(c) || IsDigit(c)
  }

  /** `[()\[\]{}.,;:#]` */
  predicate IsPunctuator(c: char)
  {
    c in "()[]{}.,;:#"
  }

  // ---------------------------------------------------------------------------
  // Building blocks

  /** The longest run of characters satisfying `p` starting at `i` (a greedy `X*`). */
  function RunLength(s: string, i: nat, p: char -> bool): (n: nat)
    requires i <= |s|
    ensures i + n <= |s|
    decreases |s| - i
  {
    if i < |s| && p(s[i]) then 1 + RunLength(s, i + 1, p) else 0
  }

  /** The run is maximal: every character in it satisfies `p`, and the one after it does not. */
  lemma {:induction false} RunLengthSpec(s: string, i: nat, p: char -> bool)
    requires i <= |s|
    ensures forall j :: i <= j < i + RunLength(s, i, p) ==> p(s[j])
    ensures i + RunLength(s, i, p) == |s| || !p(s[i + RunLength(s, i, p)])
    decreases |s| - i
  {
    if i < |s| && p(s[i]) {
      RunLengthSpec(s, i + 1, p);
    }
  }

  /** The text w occurs in s at position i. */
  predicate StartsWith(s: string, i: nat, w: string)
  {
    i + |w| <= |s| && forall j :: 0 <= j < |w| ==> s[i + j] == w[j]
  }

  /** Occurrence is the same as the slice of that length being w. */
  lemma StartsWithSlice(s: string, i: nat, w: string)
    ensures StartsWith(s, i, w) <==> i + |w| <= |s| && s[i..i + |w|] == w
  {
    if i + |w| <= |s| && s[i..i + |w|] == w {
      forall j | 0 <= j < |w| ensures s[i + j] == w[j] {
        assert s[i..i + |w|][j] == w[j];
      }
    }
  }

  /** `\b` at position p: exactly one of the characters on either side is a word character. */
  predicate IsBoundary(s: string, p: nat)
    requires p <= |s|
  {
    (0 < p && IsWordChar(s[p - 1])) != (p < |s| && IsWordChar(s[p]))
  }

  // ---------------------------------------------------------------------------
  // WHITESPACE: \s+

  function MatchWhitespace(s: string, i: nat): (r: Option<nat>)
    requires i <= |s|
    ensures r.Some? ==> 1 <= r.value && i + r.value <= |s|
  {
    var n := RunLength(s, i, IsSpace);
    if n == 0 then None else Some(n)
  }

  // ---------------------------------------------------------------------------
  // COMMENT: //.*|/\*[^*]*\*+(?:[^/*][^*]*\*+)*/

  /**
   * The end of the first star-slash pair that starts at or after j. The second
   * comment alternative accepts slash-star followed by the shortest text that
   * ends in such a pair, its star not being the opening star.
   */
  function BlockCommentEnd(s: string, j: nat): (r: Option<nat>)
    requires j <= |s|
    ensures r.Some? ==> j + 2 <= r.value <= |s| && s[r.value - 2] == '*' && s[r.value - 1] == '/'
    decreases |s| - j
  {
    if j + 1 >= |s| then None
    else if s[j] == '*' && s[j + 1] == '/' then Some(j + 2)
    else BlockCommentEnd(s, j + 1)
  }

  /** The pair found is the first one at or after j; nothing is found when there is none. */
  lemma {:induction false} BlockCommentEndFirst(s: string, j: nat)
    requires j <= |s|
    ensures var r := BlockCommentEnd(s, j);
            r.Some? ==> forall k :: j <= k < r.value - 2 ==> !(s[k] == '*' && s[k + 1] == '/')
    ensures BlockCommentEnd(s, j).None? ==> forall k :: j <= k < |s| - 1 ==> !(s[k] == '*' && s[k + 1] == '/')
    decreases |s| - j
  {
    if j + 1 < |s| && !(s[j] == '*' && s[j + 1] == '/') {
      BlockCommentEndFirst(s, j + 1);
    }
  }

  function MatchComment(s: string, i: nat): (r: Option<nat>)
    requires i <= |s|
    ensures r.Some? ==> 1 <= r.value && i + r.value <= |s|
  {
    if StartsWith(s, i, "//") then
      Some(2 + RunLength(s, i + 2, IsLineChar))
    else if StartsWith(s, i, "/*") then
      (match BlockCommentEnd(s, i + 2)
       case Some(e) => Some(e - i)
       case None => None)
    else
      None
  }

  // ---------------------------------------------------------------------------
  // KEYWORD: \b(case|return|break|void|if|int|float|do|else|while)\b

  const Keywords: seq<string> :=
    ["case", "return", "break", "void", "if", "int", "float", "do", "else", "while"]

  /** The first keyword, in written order, that is spelled at i and followed by `\b`. */
  function FirstKeyword(s: string, i: nat, kws: seq<string>): (r: Option<nat>)
    requires i <= |s|
    ensures r.Some? ==> i + r.value <= |s| && s[i..i + r.value] in kws && IsBoundary(s, i + r.value)
    ensures r.None? ==> forall w :: w in kws && StartsWith(s, i, w) ==> !IsBoundary(s, i + |w|)
  {
    if kws == [] then None
    else if StartsWith(s, i, kws[0]) && IsBoundary(s, i + |kws[0]|) then
      StartsWithSlice(s, i, kws[0]);
      Some(|kws[0]|)
    else FirstKeyword(s, i, kws[1..])
  }

  function MatchKeyword(s: string, i: nat): (r: Option<nat>)
    requires i <= |s|
    ensures r.Some? ==> 1 <= r.value && i + r.value <= |s|
  {
    if IsBoundary(s, i) then
      KeywordsNonEmpty();
      FirstKeywordLength(s, i, Keywords);
      FirstKeyword(s, i, Keywords)
    else None
  }

  /** No listed word is empty. */
  predicate NonEmptyWords(kws: seq<string>)
  {
    forall v :: 0 <= v < |kws| ==> |kws[v]| >= 1
  }

  lemma KeywordsNonEmpty()
    ensures NonEmptyWords(Keywords)
  {
  }

  /** Over non-empty words, a keyword match consumes at least one character. */
  lemma {:induction false} FirstKeywordLength(s: string, i: nat, kws: seq<string>)
    requires i <= |s| && NonEmptyWords(kws)
    ensures FirstKeyword(s, i, kws).Some? ==> FirstKeyword(s, i, kws).value >= 1
  {
    if kws != [] && !(StartsWith(s, i, kws[0]) && IsBoundary(s, i + |kws[0]|)) {
      assert forall v :: 0 <= v < |kws| - 1 ==> kws[1..][v] == kws[v + 1];
      FirstKeywordLength(s, i, kws[1..]);
    }
  }

  // ---------------------------------------------------------------------------
  // IDENTIFIER: [a-zA-Z_][a-zA-Z0-9_]*

  function MatchIdentifier(s: string, i: nat): (r: Option<nat>)
    requires i <= |s|
    ensures r.Some? ==> 1 <= r.value && i + r.value <= |s|
  {
    if i < |s| && IsIdentifierStart(s[i]) then Some(1 + RunLength(s, i + 1, IsWordChar)) else None
  }

  // ---------------------------------------------------------------------------
  // OPERATOR: \+\+|--|\+=?|-=?|\*=?|/=?|%=?|==?|!=?|<=?|>=?|&&|\|\||\^=?|<<=?|>>=?|&=|\|=|&|\|

  /** One operator alternative: a fixed, non-empty spelling, optionally followed by `=?`. */
  datatype OperatorAlternative = OperatorAlternative(spelling: Spelling, optionalEquals: bool)

  type Spelling = w: string | |w| >= 1 witness "+"


  /** The operator alternatives in written order. */
  const OperatorAlternatives: seq<OperatorAlternative> := [
    OperatorAlternative("++", false), OperatorAlternative("--", false),
    OperatorAlternative("+", true), OperatorAlternative("-", true),
    OperatorAlternative("*", true), OperatorAlternative("/", true),
    OperatorAlternative("%", true), OperatorAlternative("=", true),
    OperatorAlternative("!", true), OperatorAlternative("<", true),
    OperatorAlternative(">", true), OperatorAlternative("&&", false),
    OperatorAlternative("||", false), OperatorAlternative("^", true),
    OperatorAlternative("<<", true), OperatorAlternative(">>", true),
    OperatorAlternative("&=", false), OperatorAlternative("|=", false),
    OperatorAlternative("&", false), OperatorAlternative("|", false)
  ]

  /** The first alternative, in written order, whose spelling occurs at i; a greedy `=?` takes a following `=`. */
  function FirstOperator(s: string, i: nat, alts: seq<OperatorAlternative>): (r: Option<nat>)
    requires i <= |s|
    ensures r.Some? ==> 1 <= r.value && i + r.value <= |s|
  {
    if alts == [] then None
    else
      var a := alts[0];
      if StartsWith(s, i, a.spelling) then
        var n := |a.spelling|;
        Some(if a.optionalEquals && i + n < |s| && s[i + n] == '=' then n + 1 else n)
      else
        FirstOperator(s, i, alts[1..])
  }

  function MatchOperator(s: string, i: nat): (r: Option<nat>)
    requires i <= |s|
    ensures r.Some? ==> 1 <= r.value && i + r.value <= |s|
  {
    FirstOperator(s, i, OperatorAlternatives)
  }

  // ---------------------------------------------------------------------------
  // CONSTANT: [+-]?(\d+\.?\d*|\.\d+)([eE][+-]?\d+)?

  /** `\d+\.?\d*|\.\d+` at j. */
  function Mantissa(s: string, j: nat): (r: Option<nat>)
    requires j <= |s|
    ensures r.Some? ==> 1 <= r.value && j + r.value <= |s|
  {
    if j < |s| && IsDigit(s[j]) then
      var k := j + RunLength(s, j, IsDigit);
      if k < |s| && s[k] == '.' then Some(k + 1 + RunLength(s, k + 1, IsDigit) - j) else Some(k - j)
    else if j + 1 < |s| && s[j] == '.' && IsDigit(s[j + 1]) then
      Some(1 + RunLength(s, j + 1, IsDigit))
    else
      None
  }

  /** The optional group `([eE][+-]?\d+)?` at k: its length, 0 when it cannot match. */
  function Exponent(s: string, k: nat): (n: nat)
    requires k <= |s|
    ensures k + n <= |s|
  {
    if k < |s| && (s[k] == 'e' || s[k] == 'E') then
      if k + 2 < |s| && (s[k + 1] == '+' || s[k + 1] == '-') && IsDigit(s[k + 2]) then
        2 + RunLength(s, k + 2, IsDigit)
      else if k + 1 < |s| && IsDigit(s[k + 1]) then
        1 + RunLength(s, k + 1, IsDigit)
      else
        0
    else
      0
  }

  function MatchConstant(s: string, i: nat): (r: Option<nat>)
    requires i <= |s|
    ensures r.Some? ==> 1 <= r.value && i + r.value <= |s|
  {
    var j := if i < |s| && (s[i] == '+' || s[i] == '-') then i + 1 else i;
    match Mantissa(s, j)
    case None => None
    case Some(m) => Some(j - i + m + Exponent(s, j + m))
  }

  // ---------------------------------------------------------------------------
  // LITERAL: "([^"\\]*(\\.[^"\\]*)*)"

  /** Scans a string body from j: the position after the first unescaped quote, if any. */
  function LiteralEnd(s: string, j: nat): (r: Option<nat>)
    requires j <= |s|
    ensures r.Some? ==> j < r.value <= |s| && s[r.value - 1] == '"'
    decreases |s| - j
  {
    if j == |s| then None
    else if s[j] == '"' then Some(j + 1)
    else if s[j] == '\\' then
      if j + 1 < |s| && IsLineChar(s[j + 1]) then LiteralEnd(s, j + 2) else None
    else LiteralEnd(s, j + 1)
  }

  function MatchLiteral(s: string, i: nat): (r: Option<nat>)
    requires i <= |s|
    ensures r.Some? ==> 1 <= r.value && i + r.value <= |s|
  {
    if i < |s| && s[i] == '"' then
      (match LiteralEnd(s, i + 1)
       case Some(e) => Some(e - i)
       case None => None)
    else
      None
  }

  /**
   * The body `[^"\\]*(\\.[^"\\]*)*` read from the front: characters other
   * than a quote or a backslash, and backslashes each followed by a character
   * that `.` matches.
   */
  predicate IsStringBody(b: string)
  {
    if b == [] then true
    else if b[0] == '\\' then |b| >= 2 && IsLineChar(b[1]) && IsStringBody(b[2..])
    else b[0] != '"' && IsStringBody(b[1..])
  }

  /**
   * The scan of a string body ends at e exactly when the text from j up to
   * e - 1 is a body and a quote closes it at e - 1: the end found is the only
   * possible end, so the literal closes at the first unescaped quote.
   */
  lemma {:induction false} LiteralEndIff(s: string, j: nat, e: nat)
    requires j < e <= |s|
    ensures LiteralEnd(s, j) == Some(e) <==> s[e - 1] == '"' && IsStringBody(s[j..e - 1])
    decreases |s| - j
  {
    if s[j] == '"' {
      if e - 1 > j {
        assert s[j..e - 1][0] == '"';
      }
    } else if s[j] == '\\' {
      var b := s[j..e - 1];
      if j + 1 < |s| && IsLineChar(s[j + 1]) && j + 2 < e {
        LiteralEndIff(s, j + 2, e);
        assert b[2..] == s[j + 2..e - 1];
      } else if e - 1 > j + 1 {
        assert b[1] == s[j + 1];
      }
    } else if j + 1 < e {
      LiteralEndIff(s, j + 1, e);
      assert s[j..e - 1][1..] == s[j + 1..e - 1];
    }
  }

  /** An opening quote with no closing one: no quote closes a body, so the literal group fails. */
  lemma LiteralEndNone(s: string, j: nat)
    requires j <= |s| && LiteralEnd(s, j).None?
    ensures forall q :: j <= q < |s| ==> !(s[q] == '"' && IsStringBody(s[j..q]))
  {
    forall q | j <= q < |s|
      ensures !(s[q] == '"' && IsStringBody(s[j..q]))
    {
      LiteralEndIff(s, j, q + 1);
    }
  }

  /** LITERAL matches n characters exactly when they are a quote, a string body and a quote. */
  lemma MatchLiteralIff(s: string, i: nat, n: nat)
    requires i + n <= |s|
    ensures MatchLiteral(s, i) == Some(n)
        <==> 2 <= n && s[i] == '"' && s[i + n - 1] == '"' && IsStringBody(s[i + 1..i + n - 1])
  {
    if 2 <= n && s[i] == '"' {
      LiteralEndIff(s, i + 1, i + n);
    }
  }

  // ---------------------------------------------------------------------------
  // PUNCTUATOR: [()\[\]{}.,;:#]

  function MatchPunctuator(s: string, i: nat): (r: Option<nat>)
    requires i <= |s|
    ensures r.Some? ==> r.value == 1 && i < |s|
  {
    if i < |s| && IsPunctuator(s[i]) then Some(1) else None
  }

  // ---------------------------------------------------------------------------
  // The alternation and the scan

  /** The named group of one category. Every group consumes at least one character. */
  function MatchGroup(t: TokenType, s: string, i: nat): (r: Option<nat>)
    requires i <= |s|
    ensures r.Some? ==> 1 <= r.value && i + r.value <= |s|
  {
    match t
    case Whitespace => MatchWhitespace(s, i)
    case Comment => MatchComment(s, i)
    case Keyword => MatchKeyword(s, i)
    case Identifier => MatchIdentifier(s, i)
    case Operator => MatchOperator(s, i)
    case Constant => MatchConstant(s, i)
    case Literal => MatchLiteral(s, i)
    case Punctuator => MatchPunctuator(s, i)
  }

  /** Which group matched, and how much text. */
  datatype Hit = Hit(kind: TokenType, length: nat)

  /** The grammar tried at one position: the first group in written order that matches. */
  function MatchAt(g: seq<TokenType>, s: string, i: nat): (r: Option<Hit>)
    requires i <= |s|
    ensures r.Some? ==> 1 <= r.value.length && i + r.value.length <= |s|
  {
    if g == [] then None
    else
      match MatchGroup(g[0], s, i)
      case Some(n) => Some(Hit(g[0], n))
      case None => MatchAt(g[1..], s, i)
  }

  /** A hit names a group of the grammar, and that group's own match. */
  lemma {:induction false} MatchAtGroup(g: seq<TokenType>, s: string, i: nat)
    requires i <= |s| && MatchAt(g, s, i).Some?
    ensures MatchAt(g, s, i).value.kind in g
    ensures MatchGroup(MatchAt(g, s, i).value.kind, s, i) == Some(MatchAt(g, s, i).value.length)
  {
    if MatchGroup(g[0], s, i).None? {
      MatchAtGroup(g[1..], s, i);
    }
  }

  /**
   * Java's alternation is ordered: the group at index w wins exactly when it
   * matches and every group written before it fails.
   */
  lemma {:induction false} MatchAtFirstAlternative(g: seq<TokenType>, s: string, i: nat, w: nat)
    requires i <= |s| && w < |g|
    requires MatchGroup(g[w], s, i).Some?
    requires forall v :: 0 <= v < w ==> MatchGroup(g[v], s, i).None?
    ensures MatchAt(g, s, i) == Some(Hit(g[w], MatchGroup(g[w], s, i).value))
  {
    if w > 0 {
      assert MatchGroup(g[0], s, i).None?;
      forall v | 0 <= v < w - 1 ensures MatchGroup(g[1..][v], s, i).None? {
        assert g[1..][v] == g[v + 1];
      }
      MatchAtFirstAlternative(g[1..], s, i, w - 1);
    }
  }

  /** One successful `Matcher.find()`: where the match starts and ends, and which group matched. */
  datatype Match = Match(start: nat, kind: TokenType, end: nat)

  /** `Matcher.find()` from `from`: the leftmost position at or after `from` where the grammar matches. */
  function Find(g: seq<TokenType>, s: string, from: nat): (r: Option<Match>)
    requires from <= |s|
    ensures r.Some? ==> from <= r.value.start < r.value.end <= |s|
    ensures r.Some? ==> MatchAt(g, s, r.value.start) == Some(Hit(r.value.kind, r.value.end - r.value.start))
    decreases |s| - from
  {
    if from == |s| then None
    else
      match MatchAt(g, s, from)
      case Some(h) => Some(Match(from, h.kind, from + h.length))
      case None => Find(g, s, from + 1)
  }

  /**
   * The match found is the leftmost one: the grammar matches nowhere between
   * `from` and its start, and nowhere after `from` when nothing is found.
   */
  lemma {:induction false} FindIsLeftmost(g: seq<TokenType>, s: string, from: nat)
    requires from <= |s|
    ensures var r := Find(g, s, from);
            forall p :: from <= p < (if r.Some? then r.value.start else |s|) ==> MatchAt(g, s, p).None?
    decreases |s| - from
  {
    if from < |s| && MatchAt(g, s, from).None? {
      FindIsLeftmost(g, s, from + 1);
    }
  }

  /**
   * Every match of repeated `find()` calls from `from`, in order, each as a
   * token of its group's category with the exact matched text. A failed find
   * ends the scan; characters between matches belong to no token.
   */
  function Tokenize(g: seq<TokenType>, s: string, from: nat): (toks: seq<Token>)
    requires from <= |s|
    ensures |toks| <= |s| - from
    decreases |s| - from
  {
    match Find(g, s, from)
    case None => []
    case Some(m) => [Token(m.kind, s[m.start..m.end])] + Tokenize(g, s, m.end)
  }

  /** Every token comes from a group of the grammar and holds at least one character. */
  lemma {:induction false} TokenizeTokens(g: seq<TokenType>, s: string, from: nat)
    requires from <= |s|
    ensures forall tok :: tok in Tokenize(g, s, from) ==> tok.tokenType in g && tok.value != []
    decreases |s| - from
  {
    match Find(g, s, from)
    case None =>
    case Some(m) =>
      MatchAtGroup(g, s, m.start);
      TokenizeTokens(g, s, m.end);
  }
}
