/**
 * The whole scan: repeated `find()` calls read as a token sequence, and the
 * same sequence produced character by character by the classifier.
 */
module Scanning {
  import opened Wrappers
  import opened Tokens
  import opened Grammar
  import opened GrammarFacts

  /** The grammar of each lexer: the current one discards whitespace and comments. */
  function GrammarOf(discards: bool): seq<TokenType>
  {
    if discards then TokenRegex else LegacyTokenRegex
  }

  /**
   * A reference scanner that needs no alternation: read the category and
   * length off the character at p, emit that token and continue after it, or
   * skip one character that starts nothing.
   */
  function Scan(discards: bool, s: string, p: nat): seq<Token>
    requires p <= |s|
    decreases |s| - p, 1
  {
    if p == |s| then [] else ScanFrom(discards, s, p, Classify(discards, s, p))
  }

  /** One step of the reference scanner, given what the classifier said at p. */
  function ScanFrom(discards: bool, s: string, p: nat, r: Option<Hit>): seq<Token>
    requires p < |s| && r == Classify(discards, s, p)
    decreases |s| - p, 0
  {
    ClassifyBounds(discards, s, p);
    match r
    case None => Scan(discards, s, p + 1)
    case Some(h) => [Token(h.kind, s[p..p + h.length])] + Scan(discards, s, p + h.length)
  }

  /** `find()` succeeds at the scan position itself when some group matches there. */
  lemma FindHere(g: seq<TokenType>, s: string, p: nat, h: Hit)
    requires p < |s| && MatchAt(g, s, p) == Some(h)
    ensures Find(g, s, p) == Some(Match(p, h.kind, p + h.length))
  {
  }

  /** One successful `find()` contributes its token, and the next search starts where it ended. */
  lemma TokenizeStep(g: seq<TokenType>, s: string, p: nat, m: Match)
    requires p < |s| && Find(g, s, p) == Some(m)
    ensures Tokenize(g, s, p) == [Token(m.kind, s[m.start..m.end])] + Tokenize(g, s, m.end)
  {
  }

  /**
   * The loop view of one `find()`: the tokens already taken, followed by the
   * rest of the scan, equal the tokens taken now followed by the scan from
   * the end of the match.
   */
  lemma TokenizeResume(g: seq<TokenType>, s: string, p: nat, m: Match, done: seq<Token>)
    requires p <= |s| && Find(g, s, p) == Some(m)
    ensures done + Tokenize(g, s, p) == (done + [Token(m.kind, s[m.start..m.end])]) + Tokenize(g, s, m.end)
  {
    TokenizeStep(g, s, p, m);
  }

  /** A position where nothing matches is stepped over. */
  lemma TokenizeSkip(g: seq<TokenType>, s: string, p: nat)
    requires p < |s| && MatchAt(g, s, p).None?
    ensures Tokenize(g, s, p) == Tokenize(g, s, p + 1)
  {
    assert Find(g, s, p) == Find(g, s, p + 1);
  }

  /** A match at the scan position is the next token, and scanning resumes where it ends. */
  lemma TokenizeHere(g: seq<TokenType>, s: string, p: nat, h: Hit)
    requires p < |s| && MatchAt(g, s, p) == Some(h)
    ensures Tokenize(g, s, p) == [Token(h.kind, s[p..p + h.length])] + Tokenize(g, s, p + h.length)
  {
    FindHere(g, s, p, h);
    TokenizeStep(g, s, p, Find(g, s, p).value);
  }

  /** The reference scanner emits the classified token and continues after it. */
  lemma ScanHere(discards: bool, s: string, p: nat, h: Hit)
    requires p < |s| && Classify(discards, s, p) == Some(h)
    ensures 1 <= h.length && p + h.length <= |s|
    ensures Scan(discards, s, p) == [Token(h.kind, s[p..p + h.length])] + Scan(discards, s, p + h.length)
  {
    ClassifyBounds(discards, s, p);
    assert Scan(discards, s, p) == ScanFrom(discards, s, p, Some(h));
  }

  /** The reference scanner skips a character that starts nothing. */
  lemma ScanSkip(discards: bool, s: string, p: nat)
    requires p < |s| && Classify(discards, s, p).None?
    ensures Scan(discards, s, p) == Scan(discards, s, p + 1)
  {
    assert Scan(discards, s, p) == ScanFrom(discards, s, p, None);
  }

  /** Either grammar, tried at one position, is the classifier. */
  lemma GrammarIsClassify(discards: bool, s: string, p: nat)
    requires p < |s|
    ensures MatchAt(GrammarOf(discards), s, p) == Classify(discards, s, p)
  {
    if discards { CurrentClassify(s, p); } else { LegacyClassify(s, p); }
  }

  /** Where a scan goes on after looking at p: after the token, or one character on. */
  function StepNext(p: nat, r: Option<Hit>): nat
  {
    match r
    case None => p + 1
    case Some(h) => p + h.length
  }

  /** What a scan emits after looking at p: the token found there, if any. */
  function StepOut(s: string, p: nat, r: Option<Hit>): seq<Token>
    requires r.Some? ==> p + r.value.length <= |s|
  {
    match r
    case None => []
    case Some(h) => [Token(h.kind, s[p..p + h.length])]
  }

  /** The `find()` loop, one position at a time: emit what the grammar matches at p and go on. */
  lemma TokenizeStepAt(g: seq<TokenType>, s: string, p: nat)
    requires p < |s|
    ensures var r := MatchAt(g, s, p);
            p < StepNext(p, r) <= |s|
            && Tokenize(g, s, p) == StepOut(s, p, r) + Tokenize(g, s, StepNext(p, r))
  {
    var r := MatchAt(g, s, p);
    if r.None? {
      TokenizeSkip(g, s, p);
    } else {
      TokenizeHere(g, s, p, r.value);
    }
  }

  /** The reference scanner, one position at a time: emit what the classifier says at p and go on. */
  lemma ScanStepAt(discards: bool, s: string, p: nat)
    requires p < |s|
    ensures var r := Classify(discards, s, p);
            (r.Some? ==> p + r.value.length <= |s|)
            && p < StepNext(p, r) <= |s|
            && Scan(discards, s, p) == StepOut(s, p, r) + Scan(discards, s, StepNext(p, r))
  {
    var r := Classify(discards, s, p);
    if r.None? {
      ScanSkip(discards, s, p);
    } else {
      ScanHere(discards, s, p, r.value);
    }
  }

  /**
   * The `find()` loop of either lexer produces exactly the tokens of the
   * character-by-character reference scanner.
   */
  lemma TokenizeIsScan(discards: bool, s: string, p: nat)
    requires p <= |s|
    ensures Tokenize(GrammarOf(discards), s, p) == Scan(discards, s, p)
  {
    var g := GrammarOf(discards);
    forall q | p <= q < |s| ensures MatchAt(g, s, q) == Classify(discards, s, q) {
      GrammarIsClassify(discards, s, q);
    }
    ScansAgree(g, discards, s, p);
  }

  /** A grammar that agrees with the classifier at every remaining position scans like it. */
  lemma {:induction false} ScansAgree(g: seq<TokenType>, discards: bool, s: string, p: nat)
    requires p <= |s|
    requires forall q :: p <= q < |s| ==> MatchAt(g, s, q) == Classify(discards, s, q)
    ensures Tokenize(g, s, p) == Scan(discards, s, p)
    decreases |s| - p
  {
    if p == |s| {
      assert Find(g, s, p).None?;
    } else {
      TokenizeStepAt(g, s, p);
      ScanStepAt(discards, s, p);
      ScansAgree(g, discards, s, StepNext(p, MatchAt(g, s, p)));
    }
  }

  // ---------------------------------------------------------------------------
  // Dropping whitespace and comment matches

  /** The categories `analyze()` skips with `continue`. */
  predicate IsDiscarded(t: TokenType)
  {
    t == Whitespace || t == Comment
  }

  /** The tokens that survive the `continue`, in scan order. */
  function Emitted(toks: seq<Token>): (r: seq<Token>)
    ensures |r| <= |toks|
  {
    if toks == [] then []
    else (if IsDiscarded(toks[0].tokenType) then [] else [toks[0]]) + Emitted(toks[1..])
  }

  /** Only tokens of the scan survive, and none of them is whitespace or a comment. */
  lemma {:induction false} EmittedFilters(toks: seq<Token>)
    ensures forall tok :: tok in Emitted(toks) ==> tok in toks && !IsDiscarded(tok.tokenType)
  {
    if toks != [] {
      EmittedFilters(toks[1..]);
      assert forall tok :: tok in toks[1..] ==> tok in toks;
    }
  }

  /** Dropping discarded tokens commutes with concatenation. */
  lemma {:induction false} EmittedAppend(xs: seq<Token>, ys: seq<Token>)
    ensures Emitted(xs + ys) == Emitted(xs) + Emitted(ys)
  {
    if xs == [] {
      assert xs + ys == ys;
    } else {
      assert (xs + ys)[0] == xs[0];
      assert (xs + ys)[1..] == xs[1..] + ys;
      EmittedAppend(xs[1..], ys);
    }
  }

  /** A single token is kept exactly when its category is not discarded. */
  lemma EmittedOne(tok: Token)
    ensures Emitted([tok]) == if IsDiscarded(tok.tokenType) then [] else [tok]
  {
    assert [tok][1..] == [];
  }

  /** Tokens of the emitted categories are all kept. */
  lemma {:induction false} EmittedKeeps(toks: seq<Token>)
    requires forall k :: 0 <= k < |toks| ==> !IsDiscarded(toks[k].tokenType)
    ensures Emitted(toks) == toks
  {
    if toks != [] {
      EmittedKeeps(toks[1..]);
    }
  }

  // ---------------------------------------------------------------------------
  // The two lexers on comment-free text

  /** At whitespace the current classifier takes the whole run and the older one nothing. */
  lemma ClassifySpace(s: string, p: nat)
    requires p < |s| && IsSpace(s[p])
    ensures Classify(true, s, p) == Some(Hit(Whitespace, RunLength(s, p, IsSpace)))
    ensures Classify(false, s, p).None?
  {
  }

  /** Away from whitespace and comments the two classifiers agree. */
  lemma ClassifyModesAgree(s: string, p: nat)
    requires p < |s| && !IsSpace(s[p]) && s[p] != '/'
    ensures Classify(true, s, p) == Classify(false, s, p)
  {
    StartsWithHead(s, p, "//");
    StartsWithHead(s, p, "/*");
  }

  /** The older scanner steps over a run of whitespace one character at a time. */
  lemma {:induction false} LegacySkipsSpaces(s: string, p: nat, n: nat)
    requires p + n <= |s|
    requires forall j :: p <= j < p + n ==> IsSpace(s[j])
    ensures Scan(false, s, p) == Scan(false, s, p + n)
    decreases n
  {
    if n > 0 {
      ClassifySpace(s, p);
      ScanSkip(false, s, p);
      LegacySkipsSpaces(s, p + 1, n - 1);
    }
  }

  /** A whitespace run: the current scanner emits nothing kept, the older one skips it. */
  lemma VariantsStepSpace(s: string, p: nat) returns (n: nat)
    requires p < |s| && IsSpace(s[p])
    ensures p < p + n <= |s|
    ensures Emitted(Scan(true, s, p)) == Emitted(Scan(true, s, p + n))
    ensures Scan(false, s, p) == Scan(false, s, p + n)
  {
    n := RunLength(s, p, IsSpace);
    RunLengthSpec(s, p, IsSpace);
    ClassifySpace(s, p);
    ScanHere(true, s, p, Hit(Whitespace, n));
    var ws := Token(Whitespace, s[p..p + n]);
    assert Scan(true, s, p) == [ws] + Scan(true, s, p + n);
    EmittedAppend([ws], Scan(true, s, p + n));
    EmittedOne(ws);
    LegacySkipsSpaces(s, p, n);
  }

  /** Any other character: both scanners take the same step. */
  lemma VariantsStepOther(s: string, p: nat) returns (n: nat, kept: seq<Token>)
    requires p < |s| && !IsSpace(s[p]) && s[p] != '/'
    ensures p < p + n <= |s|
    ensures Emitted(Scan(true, s, p)) == kept + Emitted(Scan(true, s, p + n))
    ensures Scan(false, s, p) == kept + Scan(false, s, p + n)
  {
    ClassifyModesAgree(s, p);
    var r := Classify(false, s, p);
    if r.None? {
      ScanSkip(true, s, p);
      ScanSkip(false, s, p);
      n, kept := 1, [];
    } else {
      var h := r.value;
      ScanHere(true, s, p, h);
      ScanHere(false, s, p, h);
      ClassifyBounds(false, s, p);
      var tok := Token(h.kind, s[p..p + h.length]);
      EmittedAppend([tok], Scan(true, s, p + h.length));
      assert Emitted([tok]) == [tok];
      n, kept := h.length, [tok];
    }
  }

  /**
   * On text without a slash, where no comment can start, the current lexer
   * keeps exactly the tokens of the older one: the whitespace group only
   * hides characters the older grammar skips anyway.
   */
  lemma {:induction false} VariantsAgree(s: string, p: nat)
    requires p <= |s|
    requires forall j :: p <= j < |s| ==> s[j] != '/'
    ensures Emitted(Scan(true, s, p)) == Scan(false, s, p)
    decreases |s| - p
  {
    if p == |s| {
      assert Scan(true, s, p) == [] && Scan(false, s, p) == [];
    } else if IsSpace(s[p]) {
      var n := VariantsStepSpace(s, p);
      VariantsAgree(s, p + n);
    } else {
      var n, kept := VariantsStepOther(s, p);
      VariantsAgree(s, p + n);
    }
  }
}
