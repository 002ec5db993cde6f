/** The familiar Option datatype, used for "no match" and "no such key". */
module Wrappers {
  datatype Option<+T> = None | Some(value: T)
}

/**
 * Token categories and the immutable token value of the lexer
 * (`Token` and its nested enum `TokenType`).
 */
module Tokens {

  /** The closed set of token categories, in declaration order. */
  datatype TokenType =
    | Keyword
    | Identifier
    | Operator
    | Constant
    | Literal
    | Punctuator
    | Whitespace   // matched, then ignored
    | Comment      // matched, then ignored

  /** `TokenType.values()`: every category exactly once, in declaration order. */
  const AllTokenTypes: seq<TokenType> :=
    [Keyword, Identifier, Operator, Constant, Literal, Punctuator, Whitespace, Comment]

  /** The position of a category in `values()`. */
  function Ordinal(t: TokenType): (k: nat)
    ensures k < |AllTokenTypes| && AllTokenTypes[k] == t
  {
    match t
    case Keyword => 0
    case Identifier => 1
    case Operator => 2
    case Constant => 3
    case Literal => 4
    case Punctuator => 5
    case Whitespace => 6
    case Comment => 7
  }

  /** The enum constant's name, as `toString()` prints it. */
  /**
   * The same value for every category, keyed in `values()` order: the maps
   * both lexers seed before scanning.
   */
  function PerType<V>(v: V): (r: seq<(TokenType, V)>)
    ensures |r| == |AllTokenTypes|
    ensures forall k :: 0 <= k < |r| ==> r[k] == (AllTokenTypes[k], v)
  {
    seq(|AllTokenTypes|, k requires 0 <= k < |AllTokenTypes| => (AllTokenTypes[k], v))
  }

  function TypeName(t: TokenType): (name: string)
    ensures |name| >= 5
    ensures forall i :: 0 <= i < |name| ==> 'A' <= name[i] <= 'Z'
  {
    match t
    case Keyword => "KEYWORD"
    case Identifier => "IDENTIFIER"
    case Operator => "OPERATOR"
    case Constant => "CONSTANT"
    case Literal => "LITERAL"
    case Punctuator => "PUNCTUATOR"
    case Whitespace => "WHITESPACE"
    case Comment => "COMMENT"
  }
  /** Distinct categories print under distinct names. */
  lemma TypeNameInjective(a: TokenType, b: TokenType)
    ensures TypeName(a) == TypeName(b) <==> a == b
  {
  }


  /**
   * There are exactly eight categories, each listed once, so `values()` is
   * a bijection between the positions 0..7 and the categories.
   */
  lemma AllTokenTypesEnumerates()
    ensures |AllTokenTypes| == 8
    ensures forall i, j :: 0 <= i < j < |AllTokenTypes| ==> AllTokenTypes[i] != AllTokenTypes[j]
    ensures forall t: TokenType :: t in AllTokenTypes
    ensures forall k :: 0 <= k < |AllTokenTypes| ==> Ordinal(AllTokenTypes[k]) == k
  {
    forall t: TokenType ensures t in AllTokenTypes {
      assert AllTokenTypes[Ordinal(t)] == t;
    }
  }

  /** The category at position k of `values()` has ordinal k. */
  lemma OrdinalInverse(k: nat)
    requires k < |AllTokenTypes|
    ensures Ordinal(AllTokenTypes[k]) == k
  {
  }

  /** The categories in `values()` are pairwise different. */
  lemma AllTokenTypesDistinct()
    ensures forall i, j :: 0 <= i < j < |AllTokenTypes| ==> AllTokenTypes[i] != AllTokenTypes[j]
  {
    AllTokenTypesEnumerates();
  }

  /**
   * An immutable token. The datatype's destructors are the getters: a token
   * has no setters, and a datatype value cannot be changed after construction.
   */
  datatype Token = Token(tokenType: TokenType, value: string)

  /** The getters return exactly what the constructor was given, and nothing else identifies a token. */
  lemma TokenAccessors(t: TokenType, v: string, tok: Token)
    ensures Token(t, v).tokenType == t && Token(t, v).value == v
    ensures Token(tok.tokenType, tok.value) == tok
  {
  }

  /** The tokens of one category, in their original order (duplicates kept). */
  function OfType(toks: seq<Token>, t: TokenType): (r: seq<Token>)
    ensures |r| <= |toks|
  {
    if toks == [] then []
    else
      var last := toks[|toks| - 1];
      OfType(toks[..|toks| - 1], t) + (if last.tokenType == t then [last] else [])
  }

  /** Only tokens of the sequence, and only of that category, are kept. */
  lemma {:induction false} OfTypeFilters(toks: seq<Token>, t: TokenType)
    ensures forall tok :: tok in OfType(toks, t) ==> tok in toks && tok.tokenType == t
  {
    if toks != [] {
      var init := toks[..|toks| - 1];
      OfTypeFilters(init, t);
      assert forall tok :: tok in init ==> tok in toks;
    }
  }

  /** Filtering by category commutes with concatenation: scan order is kept. */
  lemma {:induction false} OfTypeAppend(xs: seq<Token>, ys: seq<Token>, t: TokenType)
    ensures OfType(xs + ys, t) == OfType(xs, t) + OfType(ys, t)
    decreases |ys|
  {
    if ys == [] {
      assert xs + ys == xs;
    } else {
      var init, last := ys[..|ys| - 1], ys[|ys| - 1];
      OfTypeAppend(xs, init, t);
      var tail := if last.tokenType == t then [last] else [];
      assert (xs + ys)[..|xs + ys| - 1] == xs + init;
      assert (xs + ys)[|xs + ys| - 1] == last;
      calc {
        OfType(xs + ys, t);
        OfType(xs + init, t) + tail;
        OfType(xs, t) + OfType(init, t) + tail;
        OfType(xs, t) + (OfType(init, t) + tail);
        OfType(xs, t) + OfType(ys, t);
      }
    }
  }

  /** A category none of the tokens has filters to nothing. */
  lemma {:induction false} OfTypeAbsent(toks: seq<Token>, t: TokenType)
    requires forall tok :: tok in toks ==> tok.tokenType != t
    ensures OfType(toks, t) == []
  {
    if toks != [] {
      var init := toks[..|toks| - 1];
      assert forall tok :: tok in init ==> tok in toks;
      OfTypeAbsent(init, t);
      assert toks[|toks| - 1] in toks;
    }
  }

  /** Filtering keeps every occurrence of a token of that category: duplicates are not merged. */
  lemma {:induction false} OfTypeKeepsDuplicates(toks: seq<Token>, tok: Token)
    ensures multiset(OfType(toks, tok.tokenType))[tok] == multiset(toks)[tok]
  {
    if toks != [] {
      var init := toks[..|toks| - 1];
      OfTypeKeepsDuplicates(init, tok);
      assert toks == init + [toks[|toks| - 1]];
    }
  }
}
