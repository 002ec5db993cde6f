# LexicalAnalyzer in Dafny

A Dafny model of the regex-driven lexical scanner of LexicalAnalyzer, in both
of its variants. There are two lexers:

- The current lexer (`unam/fi/compilers/g5/09/Lexer/Lexer.java`) scans its
  input with one ordered Java-regex alternation of eight named groups:
  WHITESPACE, COMMENT, KEYWORD, IDENTIFIER, OPERATOR, CONSTANT, LITERAL and
  PUNCTUATOR. It drops whitespace and comment matches, and counts every
  other match per category and text in insertion-ordered maps. `printTokens`
  prints those counts and their total.
- The older lexer (`code/Lexer.java`) uses the same grammar without the
  whitespace and comment groups. It files every match, in scan order, as a
  `Token` in a list per category.

Both use the token categories and the immutable token of
`unam/fi/compilers/g5/E09/Lexer/Token.java`.

The project has one module per concern:

| file | module | what it holds |
|---|---|---|
| `tokens.dfy` | `Wrappers`, `Tokens` | `Option`; the `TokenType` enum (`AllTokenTypes` is `values()`), the `Token` value, filtering by category |
| `grammar.dfy` | `Grammar` | one matcher per named group, `MatchAt` (ordered alternation), `Find` (leftmost match, as `Matcher.find()`), `Tokenize` (the successive `find()` results) |
| `grammar_facts.dfy` | `GrammarFacts` | the operator table, keywords as whole words, and `Classify`, a direct classifier proved equal to each alternation |
| `scan.dfy` | `Scanning` | `Scan`, a reference scanner built on `Classify`, proved equal to `Tokenize`; `Emitted` (what survives the `continue`); the two lexers compared |
| `linked_map.dfy` | `LinkedMaps` | `LinkedHashMap<String,Integer>` as a sequence of entries: `get`, `getOrDefault`, `put` |
| `histogram.dfy` | `Counting` | the table of counts built by the counting loop (`Tally`), and its closed form |
| `report.dfy` | `Report` | the text `printTokens` writes |
| `counting_lexer.dfy` | `CountingLexer` | class `Lexer` of the current lexer: `Analyze`, `PrintTokens` |
| `list_lexer.dfy` | `ListLexer` | class `Lexer` of the older lexer: `Analyze`, and the lists in closed form (`Group`) |
| `samples.dfy` | `Samples` | concrete scans, including the older driver's input `int x = 10; if (x > 5) { return x; }` |

How the regex is modelled:

- Each named group is a matcher. The matcher returns the length of the
  group's match at a position, or `None`.
- Alternation is ordered, as in `java.util.regex`: at a position, the first
  group in written order that matches wins, even when a later group would
  match more. So `<<=` scans as `<` then `<=`, because `<=?` is tried before
  `<<=?`.
- `Find` returns the leftmost position at or after the scan position where
  some group matches.
- Character classes:
  - `\s` is space, `\t`, `\n`, `\x0B`, `\f` and `\r`, and `\d` is `0`-`9`:
    Java's default ASCII classes.
  - `\b` sits between a word character `[A-Za-z0-9_]` and a non-word
    character or the text's edge.
  - `.` matches any character except the line terminators `\n`, `\r`,
    U+0085, U+2028 and U+2029, as Java's `.` does without the `UNIX_LINES`
    flag.
- A string literal runs to the first quote that no backslash escapes. An
  opening quote that is never closed starts no token and is skipped
  (`UnclosedQuoteSample`).

What the code does on the older driver's input,
`int x = 10; if (x > 5) { return x; }`:

- The older lexer files 16 tokens: 3 keywords, 3 identifiers, 2 operators,
  2 constants and 6 punctuators (`ProgramListsSample`).
- The current lexer keeps the same 16 tokens. `printTokens` adds up the
  counts of every entry, so it prints `Total tokens found: 16`
  (`ProgramCountSample`), even though some texts, such as `x` and `;`, are
  counted more than once.

## Model

| member | source | states |
|---|---|---|
| Tokens.Ordinal | unam/fi/compilers/g5/E09/Lexer/Token.java:10-19 | The ordinal of a category is a valid position in `values()`, and `values()` holds that category there. |
| Tokens.AllTokenTypesEnumerates | unam/fi/compilers/g5/E09/Lexer/Token.java:10-19 | `values()` has exactly eight members, pairwise distinct; every category is among them; each has its own position as ordinal. |
| Tokens.OrdinalInverse | unam/fi/compilers/g5/E09/Lexer/Token.java:10-19 | The category at position k of `values()` has ordinal k. |
| Tokens.AllTokenTypesDistinct | unam/fi/compilers/g5/E09/Lexer/Token.java:10-19 | No category appears twice in `values()`. |
| Tokens.TokenAccessors | unam/fi/compilers/g5/E09/Lexer/Token.java:21-51 | `getType()` and `getValue()` return what the constructor was given; a token is determined by its type and value; a datatype value has no setters. |
| Tokens.TypeName | unam/fi/compilers/g5/09/Lexer/Lexer.java:109 | `toString()` of a category, printed before each line: a name of at least five upper-case letters. |
| Tokens.TypeNameInjective | unam/fi/compilers/g5/09/Lexer/Lexer.java:109 | Distinct categories print under distinct names. |
| Tokens.OfType | code/Lexer.java:37-48 | The tokens of one category are never more than all the tokens. |
| Tokens.OfTypeFilters | code/Lexer.java:37-48 | Filtering by category keeps only tokens of the sequence that have that category. |
| Tokens.OfTypeAppend | code/Lexer.java:36-50 | Filtering commutes with concatenation, so scan order is preserved. |
| Tokens.OfTypeAbsent | code/Lexer.java:37-48 | A category that no token has filters to the empty list. |
| Tokens.OfTypeKeepsDuplicates | code/Lexer.java:37-48 | Filtering keeps every occurrence of a token of that category. |
| Grammar.RunLength | unam/fi/compilers/g5/09/Lexer/Lexer.java:21 | A greedy run never passes the end of the text. |
| Grammar.RunLengthSpec | unam/fi/compilers/g5/09/Lexer/Lexer.java:21 | A greedy run (`\s+`, `[a-zA-Z0-9_]*`, `\d+`) is maximal: every character in it satisfies the class, and the next one does not (or the text ends). |
| Grammar.MatchWhitespace | unam/fi/compilers/g5/09/Lexer/Lexer.java:21 | A whitespace match is at least one character and stays inside the text. |
| Grammar.BlockCommentEnd | unam/fi/compilers/g5/09/Lexer/Lexer.java:22 | The end found for a block comment is just after a `*/`. |
| Grammar.BlockCommentEndFirst | unam/fi/compilers/g5/09/Lexer/Lexer.java:22 | The block comment stops at the first `*/` after its opening: no `*/` occurs before that end. When there is no end, there is no `*/` at all. |
| Grammar.MatchComment | unam/fi/compilers/g5/09/Lexer/Lexer.java:22 | A comment match is at least one character and stays inside the text. |
| Grammar.FirstKeyword | unam/fi/compilers/g5/09/Lexer/Lexer.java:23 | A keyword match is one of the ten keywords followed by a word boundary. No match means that every keyword starting there ends without a boundary. |
| Grammar.MatchKeyword | unam/fi/compilers/g5/09/Lexer/Lexer.java:23 | A keyword match is non-empty and inside the text. |
| Grammar.MatchIdentifier | unam/fi/compilers/g5/09/Lexer/Lexer.java:24 | An identifier match is non-empty and inside the text. |
| Grammar.FirstOperator | unam/fi/compilers/g5/09/Lexer/Lexer.java:25 | A match against the operator alternatives, tried in written order, is non-empty and inside the text. |
| Grammar.MatchOperator | unam/fi/compilers/g5/09/Lexer/Lexer.java:25 | An operator match is non-empty and inside the text. |
| Grammar.Mantissa | unam/fi/compilers/g5/09/Lexer/Lexer.java:26 | `\d+\.?\d*` or `\.\d+` matches at least one character, inside the text. |
| Grammar.Exponent | unam/fi/compilers/g5/09/Lexer/Lexer.java:26 | The optional exponent stays inside the text. |
| Grammar.MatchConstant | unam/fi/compilers/g5/09/Lexer/Lexer.java:26 | A constant match is non-empty and inside the text. |
| Grammar.LiteralEnd | unam/fi/compilers/g5/09/Lexer/Lexer.java:27 | A body scan that succeeds ends just after a closing `"`; `LiteralEndIff` says which end. |
| Grammar.LiteralEndIff | unam/fi/compilers/g5/09/Lexer/Lexer.java:27 | The body scan from j ends at e exactly when the text from j to e - 1 is a body `[^"\\]*(\\.[^"\\]*)*` and a `"` is at e - 1. So the end is the only possible one, the first quote no backslash escapes, and a backslash escapes the next character that `.` matches. |
| Grammar.LiteralEndNone | unam/fi/compilers/g5/09/Lexer/Lexer.java:27 | When the body scan fails, no quote anywhere after the opening closes a body, so there is no literal at that opening quote. |
| Grammar.MatchLiteral | unam/fi/compilers/g5/09/Lexer/Lexer.java:27 | A literal match is non-empty and inside the text. |
| Grammar.MatchLiteralIff | unam/fi/compilers/g5/09/Lexer/Lexer.java:27 | LITERAL matches n characters exactly when they are a `"`, a string body and a `"`. |
| Grammar.MatchPunctuator | unam/fi/compilers/g5/09/Lexer/Lexer.java:28 | A punctuator match is exactly one character. |
| Grammar.MatchGroup | unam/fi/compilers/g5/09/Lexer/Lexer.java:21-28 | Every named group consumes at least one character when it matches. |
| Grammar.MatchAt | unam/fi/compilers/g5/09/Lexer/Lexer.java:20-29 | The alternation's match at a position is non-empty and inside the text. |
| Grammar.MatchAtGroup | unam/fi/compilers/g5/09/Lexer/Lexer.java:20-29 | The winning group belongs to the grammar, and that group alone matches there with the same length. |
| Grammar.MatchAtFirstAlternative | unam/fi/compilers/g5/09/Lexer/Lexer.java:20-29 | Ordered alternation: if group w matches and no earlier group does, then group w wins, with its own length. |
| Grammar.Find | unam/fi/compilers/g5/09/Lexer/Lexer.java:58 | `find()` returns a match at or after the scan position, non-empty and inside the text, that the alternation produces at its start. |
| Grammar.FindIsLeftmost | unam/fi/compilers/g5/09/Lexer/Lexer.java:58 | No group matches at any position between the scan position and the match found (or the end of the text, when nothing is found). |
| Grammar.Tokenize | unam/fi/compilers/g5/09/Lexer/Lexer.java:58 | The `find()` loop yields at most one token per character, so it terminates. |
| Grammar.TokenizeTokens | code/Lexer.java:36-49 | Every match has a category of the grammar and non-empty text. |
| GrammarFacts.FirstOperatorAt | unam/fi/compilers/g5/09/Lexer/Lexer.java:25 | The first operator alternative that prefixes the text wins, and takes an `=` after it when it has `\=?`. |
| GrammarFacts.OperatorWinner | unam/fi/compilers/g5/09/Lexer/Lexer.java:25 | Alternative k wins when every earlier alternative disagrees with the first or second character. |
| GrammarFacts.OperatorStar | unam/fi/compilers/g5/09/Lexer/Lexer.java:25 | At `*`, the operator is `*=` or `*`. |
| GrammarFacts.OperatorSlash | unam/fi/compilers/g5/09/Lexer/Lexer.java:25 | At `/`, the operator is `/=` or `/`. |
| GrammarFacts.OperatorPercent | unam/fi/compilers/g5/09/Lexer/Lexer.java:25 | At `%`, the operator is `%=` or `%`. |
| GrammarFacts.OperatorAssign | unam/fi/compilers/g5/09/Lexer/Lexer.java:25 | At `=`, the operator is `==` or `=`. |
| GrammarFacts.OperatorBang | unam/fi/compilers/g5/09/Lexer/Lexer.java:25 | At `!`, the operator is `!=` or `!`. |
| GrammarFacts.OperatorLess | unam/fi/compilers/g5/09/Lexer/Lexer.java:25 | At `<`, the operator is `<=` or `<`, never `<<`. |
| GrammarFacts.OperatorGreater | unam/fi/compilers/g5/09/Lexer/Lexer.java:25 | At `>`, the operator is `>=` or `>`, never `>>`. |
| GrammarFacts.OperatorCaret | unam/fi/compilers/g5/09/Lexer/Lexer.java:25 | At `^`, the operator is `^=` or `^`. |
| GrammarFacts.OperatorPlus | unam/fi/compilers/g5/09/Lexer/Lexer.java:25 | At `+`, the operator is `++`, `+=` or `+`. |
| GrammarFacts.OperatorMinus | unam/fi/compilers/g5/09/Lexer/Lexer.java:25 | At `-`, the operator is `--`, `-=` or `-`. |
| GrammarFacts.OperatorAmpersand | unam/fi/compilers/g5/09/Lexer/Lexer.java:25 | At `&`, the operator is `&&`, `&=` or `&`. |
| GrammarFacts.OperatorBar | unam/fi/compilers/g5/09/Lexer/Lexer.java:25 | At `\|`, the operator is `\|\|`, `\|=` or `\|`. |
| GrammarFacts.FirstOperatorNone | unam/fi/compilers/g5/09/Lexer/Lexer.java:25 | When no alternative prefixes the text, no operator matches. |
| GrammarFacts.OperatorTableNone | unam/fi/compilers/g5/09/Lexer/Lexer.java:25 | A character outside `+-*/%=!<>^&\|` starts no operator. |
| GrammarFacts.OperatorTable | unam/fi/compilers/g5/09/Lexer/Lexer.java:25 | An operator matches exactly when the character is an operator character. It has length two for `++ -- += -= *= /= %= == != <= >= && \|\| ^= &= \|=`, and one otherwise. |
| GrammarFacts.NoShiftOperators | unam/fi/compilers/g5/09/Lexer/Lexer.java:25 | No operator match is ever `<<`, `>>`, `<<=` or `>>=`: those alternatives are unreachable. |
| GrammarFacts.KeywordsAreWords | unam/fi/compilers/g5/09/Lexer/Lexer.java:23 | Every keyword is an identifier-shaped word. |
| GrammarFacts.WordLength | unam/fi/compilers/g5/09/Lexer/Lexer.java:24 | The identifier run at a position stays inside the text. |
| GrammarFacts.WordEndsAtBoundary | unam/fi/compilers/g5/09/Lexer/Lexer.java:23-24 | A word starting at an identifier start and followed by a boundary is the whole identifier run. |
| GrammarFacts.KeywordWordEnds | unam/fi/compilers/g5/09/Lexer/Lexer.java:23 | A keyword followed by a boundary spans the whole word. |
| GrammarFacts.KeywordNotMissed | unam/fi/compilers/g5/09/Lexer/Lexer.java:23 | When no keyword matches at a word start, the whole word is not a keyword. |
| GrammarFacts.BoundaryAfterWord | unam/fi/compilers/g5/09/Lexer/Lexer.java:23-24 | The end of an identifier run is a word boundary. |
| GrammarFacts.KeywordIsWholeWord | unam/fi/compilers/g5/09/Lexer/Lexer.java:23 | At a word start, KEYWORD matches exactly when there is a boundary before it and the whole word is a keyword. It then spans the whole word, so `integer` and `3int` contain no keyword. |
| GrammarFacts.FirstKeywordWholeWord | unam/fi/compilers/g5/09/Lexer/Lexer.java:23 | The keyword list matches at a word start exactly when the whole word is in the list. |
| GrammarFacts.KeywordsStartWithLetters | unam/fi/compilers/g5/09/Lexer/Lexer.java:23 | Every keyword starts with an identifier character. |
| GrammarFacts.FirstKeywordNone | unam/fi/compilers/g5/09/Lexer/Lexer.java:23 | No keyword matches at a character that cannot start an identifier. |
| GrammarFacts.NoWordAt | unam/fi/compilers/g5/09/Lexer/Lexer.java:23-24 | Neither KEYWORD nor IDENTIFIER matches at a character that cannot start an identifier. |
| GrammarFacts.NoKeywordAt | unam/fi/compilers/g5/09/Lexer/Lexer.java:23 | KEYWORD does not match at a character that cannot start an identifier. |
| GrammarFacts.MatchConstantStarts | unam/fi/compilers/g5/09/Lexer/Lexer.java:26 | A constant starts only at a digit, a `.` or a sign. A digit, or a `.` followed by a digit, always starts one. A `.` without a digit after it never does. |
| GrammarFacts.LegacyAlternation | code/Lexer.java:13-20 | The older alternation is KEYWORD, IDENTIFIER, OPERATOR, CONSTANT, LITERAL, PUNCTUATOR, tried in that order. |
| GrammarFacts.CurrentAlternation | unam/fi/compilers/g5/09/Lexer/Lexer.java:20-29 | The current alternation tries WHITESPACE, then COMMENT, then the six groups of the older one. |
| GrammarFacts.LegacyWord | code/Lexer.java:14-15 | At an identifier start, the match is a keyword or an identifier spanning the whole word. |
| GrammarFacts.LegacyOperator | code/Lexer.java:16-17 | At an operator character, the operator wins over a signed constant, so `-5` starts with OPERATOR `-`. |
| GrammarFacts.LegacyConstant | code/Lexer.java:17 | At a digit, or a `.` before a digit, the match is a CONSTANT. |
| GrammarFacts.LegacyOther | code/Lexer.java:18-19 | Anywhere else only LITERAL or PUNCTUATOR can match, or nothing. |
| GrammarFacts.LegacyClassify | code/Lexer.java:13-20 | `Classify` in the older mode equals the older ordered alternation at every position. |
| GrammarFacts.CurrentClassify | unam/fi/compilers/g5/09/Lexer/Lexer.java:20-29 | `Classify`, a direct classifier keyed on the first character, equals the current ordered alternation at every position. |
| GrammarFacts.ClassifyBounds | code/Lexer.java:13-20 | Every classified match is non-empty and inside the text. The older grammar never yields WHITESPACE or COMMENT. |
| Scanning.TokenizeResume | unam/fi/compilers/g5/09/Lexer/Lexer.java:58 | Resuming after a match extends what was already found by that match. |
| Scanning.GrammarIsClassify | unam/fi/compilers/g5/09/Lexer/Lexer.java:20-29 | Each lexer's alternation is its classifier. |
| Scanning.TokenizeIsScan | unam/fi/compilers/g5/09/Lexer/Lexer.java:55-58 | The tokens of the `find()` loop are exactly those of `Scan`, the reference scanner built on `Classify`, for both grammars. |
| Scanning.ScansAgree | code/Lexer.java:34-36 | Any alternation that agrees with the classifier at every position gives the reference scan. |
| Scanning.Emitted | unam/fi/compilers/g5/09/Lexer/Lexer.java:63-65 | The kept matches are at most all the matches. |
| Scanning.EmittedFilters | unam/fi/compilers/g5/09/Lexer/Lexer.java:63-65 | Every kept match is a match, and is neither whitespace nor a comment. |
| Scanning.EmittedAppend | unam/fi/compilers/g5/09/Lexer/Lexer.java:58-65 | Dropping commutes with concatenation, so the kept matches stay in scan order. |
| Scanning.EmittedOne | unam/fi/compilers/g5/09/Lexer/Lexer.java:63-65 | One match is dropped exactly when it is whitespace or a comment. |
| Scanning.EmittedKeeps | unam/fi/compilers/g5/09/Lexer/Lexer.java:63-65 | Matches that are neither whitespace nor comments are all kept. |
| Scanning.ClassifySpace | code/Lexer.java:13-20 | At whitespace the current grammar takes the whole run, and the older one matches nothing. |
| Scanning.ClassifyModesAgree | code/Lexer.java:13-20 | Away from whitespace and `/`, both grammars match the same token. |
| Scanning.LegacySkipsSpaces | code/Lexer.java:36 | The older lexer steps over a run of whitespace without a token. |
| Scanning.VariantsStepSpace | code/Lexer.java:36 | Over a whitespace run, neither lexer keeps anything. |
| Scanning.VariantsStepOther | code/Lexer.java:36-49 | At any other character without `/`, both lexers keep the same token. |
| Scanning.VariantsAgree | code/Lexer.java:13-20 | On text without `/`, the current lexer keeps exactly the tokens the older one files, in the same order. |
| LinkedMaps.IndexOf | unam/fi/compilers/g5/09/Lexer/Lexer.java:90-91 | A key found is at a position holding that key. |
| LinkedMaps.IndexOfSpec | unam/fi/compilers/g5/09/Lexer/Lexer.java:90-91 | The first position with the key is found, and nothing is found exactly when the key is absent. |
| LinkedMaps.Get | unam/fi/compilers/g5/09/Lexer/Lexer.java:90-91 | A value `get` finds is stored with that key in the map. Nothing is found only when no entry has the key. |
| LinkedMaps.GetSpec | unam/fi/compilers/g5/09/Lexer/Lexer.java:90-91 | `get` finds a value exactly for the keys present. With distinct keys it returns the value stored with that key. |
| LinkedMaps.GetOrDefault | unam/fi/compilers/g5/09/Lexer/Lexer.java:91 | `getOrDefault` is the stored value when `get` finds one, else the default. |
| LinkedMaps.Put | unam/fi/compilers/g5/09/Lexer/Lexer.java:91 | After `put(k, v)` the entry (k, v) is in the map, and the map grows by at most one entry. |
| LinkedMaps.Increment | unam/fi/compilers/g5/09/Lexer/Lexer.java:91 | After `put(k, getOrDefault(k, 0) + 1)`, `get(k)` returns the old count plus one. |
| LinkedMaps.PutSpec | unam/fi/compilers/g5/09/Lexer/Lexer.java:91 | After `put(k, v)`, k maps to v and every other key to its old value. The key order is unchanged, or ends with k when k was new. Keys stay distinct. |
| LinkedMaps.IncrementNew | unam/fi/compilers/g5/09/Lexer/Lexer.java:91 | Counting a new text appends the entry with count 1. |
| LinkedMaps.IndexOfDistinct | unam/fi/compilers/g5/09/Lexer/Lexer.java:90-91 | With distinct keys, each key is found at its own position. |
| LinkedMaps.IndexOfAppend | unam/fi/compilers/g5/09/Lexer/Lexer.java:91 | Appending an entry does not move the existing keys. |
| LinkedMaps.SameKeysSameIndex | unam/fi/compilers/g5/09/Lexer/Lexer.java:91 | Maps with the same key sequence find every key at the same position. |
| LinkedMaps.SumAppend | unam/fi/compilers/g5/09/Lexer/Lexer.java:113-116 | The sum of counts is additive over concatenation. |
| LinkedMaps.SumUpdate | unam/fi/compilers/g5/09/Lexer/Lexer.java:113-116 | Replacing an entry changes the sum by the difference in counts. |
| LinkedMaps.IncrementSum | unam/fi/compilers/g5/09/Lexer/Lexer.java:91 | `put(v, getOrDefault(v, 0) + 1)` adds exactly one to the sum of counts. |
| Counting.FirstOccurrences | unam/fi/compilers/g5/09/Lexer/Lexer.java:89-92 | The distinct texts contain exactly the texts of the input, each once. |
| Counting.CountsOver | unam/fi/compilers/g5/09/Lexer/Lexer.java:89-92 | One entry per key. |
| Counting.HistogramClosedForm | unam/fi/compilers/g5/09/Lexer/Lexer.java:89-92 | `Histogram`, one category's map as the loop builds it, is one entry per distinct text in first-seen order, each with its number of occurrences. |
| Counting.CountsSnocSeen | unam/fi/compilers/g5/09/Lexer/Lexer.java:91 | Counting a text already seen increments its entry in place. |
| Counting.CountsOverSeen | unam/fi/compilers/g5/09/Lexer/Lexer.java:91 | Counting a text already seen adds one to its count at its own position. |
| Counting.CountsSnocNew | unam/fi/compilers/g5/09/Lexer/Lexer.java:91 | Counting a new text appends it. |
| Counting.CountsOverNew | unam/fi/compilers/g5/09/Lexer/Lexer.java:91 | Counting a new text appends `(text, 1)`. |
| Counting.HistogramDistinct | unam/fi/compilers/g5/09/Lexer/Lexer.java:89-92 | The keys are the texts in first-seen order, each once. |
| Counting.HistogramCounts | unam/fi/compilers/g5/09/Lexer/Lexer.java:89-92 | Keys are distinct. Each entry is a matched text with a count of at least 1, equal to its number of occurrences. `get` finds a count for exactly the texts seen. |
| Counting.HistogramSum | unam/fi/compilers/g5/09/Lexer/Lexer.java:89-92 | The counts add up to the number of texts counted. |
| Counting.HistogramKeysStable | unam/fi/compilers/g5/09/Lexer/Lexer.java:91 | Keys are never removed: the keys after a prefix are a prefix of the final keys. |
| Counting.FirstOccurrencesPrefix | unam/fi/compilers/g5/09/Lexer/Lexer.java:89-92 | The distinct texts of a prefix of the matches are a prefix of the distinct texts of all of them, in first-seen order. |
| Counting.CountToken | unam/fi/compilers/g5/09/Lexer/Lexer.java:89-92 | Counting a token keeps one map per category. |
| Counting.Tally | unam/fi/compilers/g5/09/Lexer/Lexer.java:48-93 | The counting loop's table has one map per category. |
| Counting.ValuesOfAbsent | unam/fi/compilers/g5/09/Lexer/Lexer.java:63-65 | A category with no tokens has no values. |
| Counting.TallyAt | unam/fi/compilers/g5/09/Lexer/Lexer.java:48-92 | Each category's map is the histogram of the texts of that category's tokens, in first-seen order. |
| Counting.IncrementOwn | unam/fi/compilers/g5/09/Lexer/Lexer.java:90-91 | Counting a token updates its category's histogram by its text. |
| Counting.TallyKeys | unam/fi/compilers/g5/09/Lexer/Lexer.java:48-53 | The table has exactly one entry per category, keyed in `values()` order. |
| Counting.TableTotalUpdate | unam/fi/compilers/g5/09/Lexer/Lexer.java:113-116 | Replacing one category's map changes the total by the difference of its sums. |
| Counting.TableTotalEmpty | unam/fi/compilers/g5/09/Lexer/Lexer.java:105-116 | A table of empty maps totals zero. |
| Counting.CountTokenTotal | unam/fi/compilers/g5/09/Lexer/Lexer.java:91 | Counting one token adds one to the total. |
| Counting.TallyTotal | unam/fi/compilers/g5/09/Lexer/Lexer.java:89-92 | `TableTotal`, the sum of all counts in the table, equals the number of kept matches. |
| Counting.TallyEntries | unam/fi/compilers/g5/09/Lexer/Lexer.java:89-92 | Within one category, texts are distinct, and every count is at least 1. A text has a count exactly when it matched under that category, and the count is the number of times it matched. |
| Counting.ValuesOfCount | unam/fi/compilers/g5/09/Lexer/Lexer.java:89-92 | A text occurs among a category's values as often as the token (category, text) occurs among the matches. |
| Report.DigitChar | unam/fi/compilers/g5/09/Lexer/Lexer.java:114 | A digit prints as a character `0`-`9`. |
| Report.Decimal | unam/fi/compilers/g5/09/Lexer/Lexer.java:114 | A printed count has at least one character. |
| Report.DecimalDigits | unam/fi/compilers/g5/09/Lexer/Lexer.java:114 | A printed count is decimal digits, without a leading zero unless it is 0. |
| Report.DecimalRoundTrip | unam/fi/compilers/g5/09/Lexer/Lexer.java:124 | A printed count reads back as the same number. |
| Report.Formatted | unam/fi/compilers/g5/09/Lexer/Lexer.java:110-116 | One formatted `text[count]` string per entry. |
| Report.JoinCons | unam/fi/compilers/g5/09/Lexer/Lexer.java:119 | `String.join(", ", parts)` puts the separator between the first part and the join of the rest. |
| Report.Section | unam/fi/compilers/g5/09/Lexer/Lexer.java:107-120 | A category prints a line exactly when its map is non-empty, and the line ends with a newline. |
| Report.SectionsEmptyIff | unam/fi/compilers/g5/09/Lexer/Lexer.java:107-121 | No category line is printed exactly when every map is empty. |
| Report.SectionsPrefix | unam/fi/compilers/g5/09/Lexer/Lexer.java:107-121 | `Sections`, the category lines of `printTokens`: each category's line and sum come after those of the earlier categories, and an empty category adds neither. |
| Report.FormattedPrefix | unam/fi/compilers/g5/09/Lexer/Lexer.java:113-116 | Each entry appends its `text[count]` and adds its count. |
| Report.SectionsOfEmptyMaps | unam/fi/compilers/g5/09/Lexer/Lexer.java:108 | Empty categories print no line and add nothing to the total. |
| Report.ReportOfNothing | unam/fi/compilers/g5/09/Lexer/Lexer.java:104-125 | The counts of no tokens print only the blank line and `Total tokens found: 0`. |
| Report.ReportEndsWithTotal | unam/fi/compilers/g5/09/Lexer/Lexer.java:124 | `ReportText`, all that `printTokens` prints, ends with `Total tokens found: ` and the total, and that number reads back as the table total. |
| Report.ReportTotal | unam/fi/compilers/g5/09/Lexer/Lexer.java:104-125 | For the counts of any kept matches, the printed total reads back as their number. |
| CountingLexer.EmittedHasNoDiscarded | unam/fi/compilers/g5/09/Lexer/Lexer.java:63-65 | The kept matches have no whitespace or comment texts. |
| CountingLexer.TallyOfEmitted | unam/fi/compilers/g5/09/Lexer/Lexer.java:50-65 | Counting only kept matches leaves the WHITESPACE and COMMENT maps empty. |
| CountingLexer.KeepStep | unam/fi/compilers/g5/09/Lexer/Lexer.java:63-65 | A match is appended to the kept matches unless it is whitespace or a comment. |
| CountingLexer.CountKept | unam/fi/compilers/g5/09/Lexer/Lexer.java:89-92 | The in-place `put(text, getOrDefault(text, 0) + 1)` on the token's category is one step of the counting table. |
| CountingLexer.CountsOfScan | unam/fi/compilers/g5/09/Lexer/Lexer.java:48-95 | The counts of a scan have the seeded keys, empty WHITESPACE and COMMENT maps, and a total equal to the number of kept matches. |
| CountingLexer.Lexer.constructor | unam/fi/compilers/g5/09/Lexer/Lexer.java:36-38 | The lexer holds the given input. |
| CountingLexer.Lexer.Analyze | unam/fi/compilers/g5/09/Lexer/Lexer.java:46-96 | The result is the counting table of the kept matches of the `find()` loop. It has one map per category in `values()` order, empty WHITESPACE and COMMENT maps, and a total equal to the number of kept matches. |
| CountingLexer.Lexer.PrintTokens | unam/fi/compilers/g5/09/Lexer/Lexer.java:104-125 | The printed text is each non-empty category's line, then a blank line and the total of all counts. |
| ListLexer.FileToken | code/Lexer.java:37-48 | Filing a token keeps one list per category. |
| ListLexer.Group | code/Lexer.java:28-50 | Filing keeps one list per category. |
| ListLexer.GroupAt | code/Lexer.java:28-50 | Each category's list holds exactly the matches of that category, in scan order. |
| ListLexer.GroupFiles | code/Lexer.java:37-48 | Each list holds only matches of its own category. Every such match appears in it as often as it was matched, so duplicates are kept. |
| ListLexer.FiledUnderOwnType | code/Lexer.java:37-48 | A token is in a category's list exactly when it was matched and has that category. |
| ListLexer.GroupAppend | code/Lexer.java:36-50 | Lists only grow at their ends: the lists of a longer scan extend those of its prefix. |
| ListLexer.TotalLengthUpdate | code/Lexer.java:37-48 | Replacing one list changes the total length by the difference of their lengths. |
| ListLexer.TotalLengthEmpty | code/Lexer.java:28-32 | Seeded empty lists hold no tokens. |
| ListLexer.GroupTotal | code/Lexer.java:36-50 | `TotalLength`, the number of tokens across all lists, equals the number of matches: each match is filed exactly once. |
| ListLexer.ListOutsideGrammar | code/Lexer.java:13-20 | A category the grammar lacks gets no tokens, so its list stays empty. |
| ListLexer.ScanHasNoDiscarded | code/Lexer.java:13-20 | The WHITESPACE and COMMENT lists stay empty. |
| ListLexer.FileMatch | code/Lexer.java:37-48 | The in-place `add` on the token's category list is one filing step. |
| ListLexer.ListsOfScan | code/Lexer.java:28-50 | The lists of a scan have the seeded keys, empty WHITESPACE and COMMENT lists, and a total equal to the number of matches. |
| ListLexer.Lexer.constructor | code/Lexer.java:23-25 | The lexer holds the given input. |
| ListLexer.Lexer.Analyze | code/Lexer.java:27-53 | The result is the lists of the `find()` loop's matches, each filed under its category. Keys are in `values()` order, the WHITESPACE and COMMENT lists are empty, and the total length equals the number of matches. |
| Samples.RunLengthIs | unam/fi/compilers/g5/09/Lexer/Lexer.java:21 | A run of known extent has exactly that greedy length. |
| Samples.ScanWord | unam/fi/compilers/g5/09/Lexer/Lexer.java:23-24 | A whole word is one KEYWORD token when it is a keyword with a boundary before it, and one IDENTIFIER token otherwise. |
| Samples.ScanOperator | unam/fi/compilers/g5/09/Lexer/Lexer.java:25 | An operator character yields one OPERATOR token of the table's length. |
| Samples.ScanConstant | unam/fi/compilers/g5/09/Lexer/Lexer.java:26 | A constant start yields one CONSTANT token of the constant's length. |
| Samples.ScanPunctuator | unam/fi/compilers/g5/09/Lexer/Lexer.java:28 | A punctuator that starts no constant yields one PUNCTUATOR token. |
| Samples.ScanLiteral | unam/fi/compilers/g5/09/Lexer/Lexer.java:27 | A `"` with a closing quote yields one LITERAL token up to it. |
| Samples.ScanUnclosedQuote | unam/fi/compilers/g5/09/Lexer/Lexer.java:27 | A `"` whose body scan fails starts no token and is skipped. |
| Samples.ScanNothing | unam/fi/compilers/g5/09/Lexer/Lexer.java:21-28 | A character that starts no group is skipped. |
| Samples.KeywordSample | unam/fi/compilers/g5/09/Lexer/Lexer.java:23 | `int` is one KEYWORD. |
| Samples.IdentifierSample | unam/fi/compilers/g5/09/Lexer/Lexer.java:23-24 | `integer` is one IDENTIFIER, not the keyword `int`. |
| Samples.DigitBeforeKeywordSample | unam/fi/compilers/g5/09/Lexer/Lexer.java:23-26 | `3int` is CONSTANT `3`, then IDENTIFIER `int`: there is no boundary between `3` and `i`. |
| Samples.ShiftAssignSample | unam/fi/compilers/g5/09/Lexer/Lexer.java:25 | `<<=` is OPERATOR `<`, then OPERATOR `<=`. |
| Samples.NegativeNumberSample | unam/fi/compilers/g5/09/Lexer/Lexer.java:25-26 | `-5` is OPERATOR `-`, then CONSTANT `5`. |
| Samples.TrailingDotSample | unam/fi/compilers/g5/09/Lexer/Lexer.java:26 | `1.` is one CONSTANT. |
| Samples.LeadingDotSample | unam/fi/compilers/g5/09/Lexer/Lexer.java:26 | `.5` is one CONSTANT. |
| Samples.ExponentSample | unam/fi/compilers/g5/09/Lexer/Lexer.java:26 | `1.5e-3` is one CONSTANT. |
| Samples.BareExponentSample | unam/fi/compilers/g5/09/Lexer/Lexer.java:24-26 | `1e` is CONSTANT `1`, then IDENTIFIER `e`. |
| Samples.LoneDotSample | unam/fi/compilers/g5/09/Lexer/Lexer.java:26-28 | A lone `.` is a PUNCTUATOR. |
| Samples.EscapedQuoteSample | unam/fi/compilers/g5/09/Lexer/Lexer.java:27 | `"a\"b"` is one LITERAL: the escaped quote does not end it. |
| Samples.UnclosedQuoteSample | unam/fi/compilers/g5/09/Lexer/Lexer.java:24-27 | In `"ab` the quote is never closed, so it starts no literal and is skipped; `ab` is one IDENTIFIER. |
| Samples.OpenCommentSample | unam/fi/compilers/g5/09/Lexer/Lexer.java:22-25 | An unterminated `/*` is OPERATOR `/`, then OPERATOR `*`. |
| Samples.UnmatchedSample | unam/fi/compilers/g5/09/Lexer/Lexer.java:21-28 | `@$?~'` yields no token. |
| Samples.LineCommentSample | unam/fi/compilers/g5/09/Lexer/Lexer.java:21-22 | In `x // y` followed by a newline, the comment stops before the newline. Only IDENTIFIER `x` is kept. |
| Samples.LegacyLineCommentSample | code/Lexer.java:13-19 | The older lexer has no comment group: `// x` is OPERATOR `/`, OPERATOR `/`, IDENTIFIER `x`. |
| Samples.ProgramSample | code/Program.java:6 | The driver input scans to the sixteen tokens `int x = 10 ; if ( x > 5 ) { return x ; }`. |
| Samples.ProgramScan | code/Lexer.java:36-49 | Any text spelled like the driver input scans to those sixteen tokens. |
| Samples.ProgramChain | code/Lexer.java:36-49 | The reference scan of the driver input is those sixteen tokens. |
| Samples.ProgramOfType | code/Lexer.java:37-48 | The driver input's tokens of each category are those of the expected lists. |
| Samples.ProgramGroups | code/Lexer.java:28-50 | Filing those tokens gives KEYWORD [int, if, return], IDENTIFIER [x, x, x], OPERATOR [=, >], CONSTANT [10, 5] and PUNCTUATOR [;, (, ), {, ;, }], with every other list empty: sixteen tokens in all. |
| Samples.ProgramListsSample | code/Lexer.java:27-53 | `analyze()` of the older lexer returns those lists for the driver input. |
| Samples.ProgramCountTotal | unam/fi/compilers/g5/09/Lexer/Lexer.java:58-92 | The current lexer keeps the same sixteen tokens for that text, and its total is 16. |
| Samples.ProgramCountSample | unam/fi/compilers/g5/09/Lexer/Lexer.java:104-125 | The current lexer's total for the driver input is 16. |

## Left out

- `code/Lexer.java` `printTokens` (lines 55-65): it only writes each list to the console, and computes nothing.
- The drivers (`Program.java` in each package): the Swing file chooser, file reading and console output are I/O. The older driver's input string appears as the sample `ProgramText`.
- `System.out` itself: `PrintTokens` returns the text it would print, with `\n` as the line separator.
- `java.util.regex` in general: the model hand-codes the fixed patterns of the two grammars, including the ordered choice among alternatives.
- `\b` next to non-ASCII letters and digits: Java decides word boundaries with Unicode letter and digit tests, while the model's word characters are `[A-Za-z0-9_]`.
- Counts and totals are unbounded naturals, so Java `int` overflow at 2^31 matches is not modelled.
- `09` is not a legal package name, and `code/Lexer.java` uses a `Token` class that is not shown. Both lexers use the single `TokenType` and `Token` of `unam/fi/compilers/g5/E09/Lexer/Token.java`.
- Report.ParseDecimal: defined on every string, but only ever read back on printed counts.
- Counting.TallyEntries: the per-text counts of the driver input are not stated individually. Only the total (16) and the token sequence are proved for it; the per-text counts follow from this lemma applied to those sixteen tokens.
- `find()` retries an empty match one position later; no group here matches the empty string (`Grammar.MatchGroup`), so that case does not arise.
