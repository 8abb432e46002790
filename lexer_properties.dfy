/**
 * What one call of the lexer does with each kind of input, and the lexer's
 * inverse: rendering a sequence of tokens as text and lexing that text gives
 * the same tokens back.
 */
module LexingProperties {
  import opened Wrappers
  import opened Literals
  import opened Tokens
  import opened Lexing

  /** A maximal run is found wherever it is measured from. */
  lemma {:induction false} RunEndOver(s: string, i: nat, j: nat, cls: CharClass)
    requires i <= j <= |s|
    requires forall k :: i <= k < j ==> InClass(s[k], cls)
    requires !InClass(PeekAt(s, j), cls)
    ensures RunEnd(s, i, cls) == j
    decreases j - i
  {
    if i < j {
      RunEndOver(s, i + 1, j, cls);
    }
  }

  /** Once `end` is returned, every further call returns it again and leaves the cursor put. */
  lemma EndRepeats(s: string, i: nat)
    requires i <= |s|
    ensures var r := Lex(s, i); r.token.kind == End ==> Lex(s, r.index) == r
  {
  }

  /** Whitespace before a token is skipped before the token is classified. */
  lemma SkipsWhitespace(s: string, i: nat)
    requires i <= |s|
    ensures Lex(s, i) == Lex(s, RunEnd(s, i, Space))
  {
    var j := RunEnd(s, i, Space);
    RunEndOver(s, j, j, Space);
  }

  /** A lone space before the cursor changes nothing in the rest of the stream. */
  lemma SpaceSkipped(s: string, i: nat)
    requires i < |s| && IsSpace(s[i])
    ensures TokensFrom(s, i) == TokensFrom(s, i + 1)
  {
    SpaceSkippedOnce(s, i);
  }

  lemma SpaceSkippedOnce(s: string, i: nat)
    requires i < |s| && IsSpace(s[i])
    ensures Lex(s, i) == Lex(s, i + 1)
  {
    RunEndOver(s, i, RunEnd(s, i + 1, Space), Space);
  }

  /** The stream is the token of one call followed by the stream after it. */
  lemma StreamStep(s: string, i: nat, t: Token, j: nat)
    requires i < j <= |s|
    requires Lex(s, i) == Lexed(t, j) && t.kind != End
    ensures TokensFrom(s, i) == [t] + TokensFrom(s, j)
  {
  }

  /** Each of `+ - * / ( ) ;` yields its kind and advances the cursor by one. */
  lemma PunctuatorStep(s: string, i: nat, k: Kind)
    requires i < |s| && Punctuator(s[i]) == Some(k)
    ensures Lex(s, i) == Lexed(Create(k), i + 1)
  {
    RunEndOver(s, i, i, Space);
  }

  /**
   * A maximal run of digits yields one number token whose value is the left
   * fold `n * 10 + d` of the run; the cursor ends on the first non-digit.
   */
  lemma NumberStep(s: string, i: nat, j: nat)
    requires i < j <= |s|
    requires forall k :: i <= k < j ==> IsDigit(s[k])
    requires !IsDigit(PeekAt(s, j))
    ensures AllDigits(s[i..j])
    ensures Lex(s, i) == Lexed(CreateNumber(DigitsValue(s[i..j])), j)
  {
    RunEndOver(s, i, i, Space);
    RunEndOver(s, i, j, Digit);
  }

  /** The lexer reads back the number the printers write. */
  lemma NumberRoundTrip(n: nat, rest: string)
    requires !IsDigit(PeekAt(rest, 0))
    ensures Lex(NatToString(n) + rest, 0) == Lexed(CreateNumber(n), |NatToString(n)|)
  {
    var digits := NatToString(n);
    var s := digits + rest;
    assert s[0..|digits|] == digits;
    assert PeekAt(s, |digits|) == PeekAt(rest, 0);
    NumberStep(s, 0, |digits|);
  }

  /** Every keyword is lexed from exactly its display text. */
  lemma KeywordIsItsText(word: string)
    ensures Keyword(word).Some? ==> KindText(Keyword(word).value) == word
    ensures Keyword(word).Some? <==> word in {"laat", "het", "zijn", "print", "uit", "en"}
  {
  }

  /**
   * A run of 1 to 100 letters yields its keyword token, or else a name token
   * whose text is exactly the run.
   */
  lemma WordStep(s: string, i: nat, j: nat)
    requires i < j <= |s| && j - i <= BufSize
    requires forall k :: i <= k < j ==> IsAlpha(s[k])
    requires !IsAlpha(PeekAt(s, j))
    ensures Lex(s, i) == Lexed(WordToken(s[i..j]), j)
    ensures Keyword(s[i..j]).Some? ==> Lex(s, i).token == Create(Keyword(s[i..j]).value)
    ensures Keyword(s[i..j]).None? ==> Lex(s, i).token == CreateName(s[i..j])
  {
    RunEndOver(s, i, i, Space);
    RunEndOver(s, i, j, Alpha);
  }

  /**
   * A run of more than 100 letters yields exactly one error token, naming the
   * first ten letters, and all letters of the run are consumed.
   */
  lemma LongWordStep(s: string, i: nat, j: nat)
    requires i <= j <= |s| && j - i > BufSize
    requires forall k :: i <= k < j ==> IsAlpha(s[k])
    requires !IsAlpha(PeekAt(s, j))
    ensures Lex(s, i) == Lexed(CreateError(NameTooLong(s[i..i + 10])), j)
  {
    RunEndOver(s, i, i, Space);
    RunEndOver(s, i, j, Alpha);
  }

  /**
   * Any other character yields an error token naming it and consumes exactly
   * that character, so lexing carries on after it.
   */
  lemma InvalidCharacterStep(s: string, i: nat)
    requires i < |s|
    requires s[i] != '\0' && !IsSpace(s[i]) && !IsDigit(s[i]) && !IsAlpha(s[i])
    requires Punctuator(s[i]).None?
    ensures Lex(s, i) == Lexed(CreateError(InvalidCharacter(s[i])), i + 1)
    ensures TokensFrom(s, i) == [CreateError(InvalidCharacter(s[i]))] + TokensFrom(s, i + 1)
  {
    RunEndOver(s, i, i, Space);
  }

  /** `next` is `j`, or `j + 1` past one space at `j`. */
  predicate OptionalSpace(s: string, j: nat, next: nat) {
    next == j || (j < |s| && s[j] == ' ' && next == j + 1)
  }

  /** An optional space changes nothing in the stream. */
  lemma SkipOptionalSpace(s: string, j: nat, next: nat)
    requires j <= |s| && OptionalSpace(s, j, next)
    ensures next <= |s| && TokensFrom(s, j) == TokensFrom(s, next)
  {
    if next != j {
      SpaceSkipped(s, j);
    }
  }

  /** In the stream, a run of 1 to 100 letters contributes its word token. */
  lemma WordInStream(s: string, i: nat, j: nat, next: nat)
    requires i < j <= |s| && j - i <= BufSize
    requires forall k :: i <= k < j ==> IsAlpha(s[k])
    requires !IsAlpha(PeekAt(s, j)) && OptionalSpace(s, j, next)
    ensures TokensFrom(s, i) == [WordToken(s[i..j])] + TokensFrom(s, next)
  {
    WordStep(s, i, j);
    StreamStep(s, i, WordToken(s[i..j]), j);
    SkipOptionalSpace(s, j, next);
  }

  /** In the stream, a maximal run of digits contributes its number token. */
  lemma NumberInStream(s: string, i: nat, j: nat, next: nat)
    requires i < j <= |s|
    requires forall k :: i <= k < j ==> IsDigit(s[k])
    requires !IsDigit(PeekAt(s, j)) && OptionalSpace(s, j, next)
    ensures TokensFrom(s, i) == [CreateNumber(DigitsValue(s[i..j]))] + TokensFrom(s, next)
  {
    NumberStep(s, i, j);
    StreamStep(s, i, CreateNumber(DigitsValue(s[i..j])), j);
    SkipOptionalSpace(s, j, next);
  }

  /** In the stream, a punctuator contributes its token. */
  lemma PunctuatorInStream(s: string, i: nat, k: Kind, next: nat)
    requires i < |s| && Punctuator(s[i]) == Some(k) && OptionalSpace(s, i + 1, next)
    ensures TokensFrom(s, i) == [Create(k)] + TokensFrom(s, next)
  {
    PunctuatorStep(s, i, k);
    StreamStep(s, i, Create(k), i + 1);
    SkipOptionalSpace(s, i + 1, next);
  }

  /** In the stream, an invalid character contributes an error token naming it. */
  lemma InvalidInStream(s: string, i: nat, next: nat)
    requires i < |s|
    requires s[i] != '\0' && !IsSpace(s[i]) && !IsDigit(s[i]) && !IsAlpha(s[i])
    requires Punctuator(s[i]).None? && OptionalSpace(s, i + 1, next)
    ensures TokensFrom(s, i) == [CreateError(InvalidCharacter(s[i]))] + TokensFrom(s, next)
  {
    InvalidCharacterStep(s, i);
    StreamStep(s, i, CreateError(InvalidCharacter(s[i])), i + 1);
    SkipOptionalSpace(s, i + 1, next);
  }

  /** Nothing is left in the stream at the end of the text. */
  lemma StreamAtEnd(s: string)
    ensures TokensFrom(s, |s|) == []
  {
    assert RunEnd(s, |s|, Space) == |s|;
  }

  // The inverse of the lexer.

  /** A token the lexer can produce without error, with a name of 1 to 100 letters. */
  predicate Lexable(t: Token) {
    || (t.kind in {Plus, Minus, Star, Slash, Semicolon, LParen, RParen, Laat, Het, Zijn, Print, Uit, En}
        && t == Create(t.kind))
    || t == CreateNumber(t.number)
    || (t == CreateName(t.name) && 1 <= |t.name| <= BufSize
        && (forall k :: 0 <= k < |t.name| ==> IsAlpha(t.name[k]))
        && Keyword(t.name).None?)
  }

  /** The source text of a lexable token. */
  function TokenText(t: Token): string {
    if t.kind == Number then NatToString(t.number)
    else if t.kind == Name then t.name
    else KindText(t.kind)
  }

  /** The text of a token sequence, each token followed by one space. */
  function Render(ts: seq<Token>): string {
    if ts == [] then "" else TokenText(ts[0]) + " " + Render(ts[1..])
  }

  /** A lexable token written at `i` and followed by a space is lexed back from `i`. */
  lemma TokenStep(s: string, i: nat, t: Token)
    requires Lexable(t)
    requires i + |TokenText(t)| < |s| && s[i..i + |TokenText(t)|] == TokenText(t)
    requires s[i + |TokenText(t)|] == ' '
    ensures Lex(s, i) == Lexed(t, i + |TokenText(t)|)
  {
    var text := TokenText(t);
    var j := i + |text|;
    assert forall k :: i <= k < j ==> s[k] == text[k - i];
    if t.kind == Number {
      NumberStep(s, i, j);
      assert s[i..j] == NatToString(t.number);
    } else if t.kind == Name {
      WordStep(s, i, j);
    } else if t.kind in {Plus, Minus, Star, Slash, Semicolon, LParen, RParen} {
      PunctuatorStep(s, i, t.kind);
    } else {
      assert forall k :: 0 <= k < |text| ==> IsAlpha(text[k]);
      WordStep(s, i, j);
      KeywordIsItsText(text);
    }
  }

  /** A lexable token followed by a space contributes itself to the stream. */
  lemma TokenThenSpace(s: string, i: nat, t: Token, j: nat)
    requires Lexable(t) && j == i + |TokenText(t)|
    requires j < |s| && s[i..j] == TokenText(t) && s[j] == ' '
    ensures TokensFrom(s, i) == [t] + TokensFrom(s, j + 1)
  {
    TokenStep(s, i, t);
    StreamThenSpace(s, i, t, j);
  }

  lemma StreamThenSpace(s: string, i: nat, t: Token, j: nat)
    requires i < j < |s| && IsSpace(s[j])
    requires Lex(s, i) == Lexed(t, j) && t.kind != End
    ensures TokensFrom(s, i) == [t] + TokensFrom(s, j + 1)
  {
    StreamStep(s, i, t, j);
    SpaceSkipped(s, j);
  }

  /** Every token of `ts` is lexable. */
  predicate AllLexable(ts: seq<Token>) {
    forall k :: 0 <= k < |ts| ==> Lexable(ts[k])
  }

  /** Lexing from any point where a rendering starts yields the rendered tokens. */
  lemma {:induction false} RenderedAt(s: string, i: nat, ts: seq<Token>)
    requires AllLexable(ts)
    requires i <= |s| && s[i..] == Render(ts)
    ensures TokensFrom(s, i) == ts
    decreases |ts|
  {
    if ts == [] {
      assert i == |s|;
      StreamAtEnd(s);
    } else {
      var j := i + |TokenText(ts[0])|;
      RenderSplit(s, i, ts, j);
      TokenThenSpace(s, i, ts[0], j);
      RenderedAt(s, j + 1, ts[1..]);
    }
  }

  lemma RenderSplit(s: string, i: nat, ts: seq<Token>, j: nat)
    requires ts != [] && j == i + |TokenText(ts[0])|
    requires i <= |s| && s[i..] == Render(ts)
    ensures j < |s| && s[i..j] == TokenText(ts[0]) && s[j] == ' ' && s[j + 1..] == Render(ts[1..])
  {
    SpaceSplit(s, i, TokenText(ts[0]), Render(ts[1..]));
  }

  lemma SpaceSplit(s: string, i: nat, text: string, rest: string)
    requires i <= |s| && s[i..] == text + " " + rest
    ensures var j := i + |text|;
      j < |s| && s[i..j] == text && s[j] == ' ' && s[j + 1..] == rest
  {
    var j := i + |text|;
    assert s[i..][..|text|] == text;
    assert s[i..][|text| + 1..] == rest;
  }

  /** The lexer inverts `Render`. */
  lemma RenderRoundTrip(ts: seq<Token>)
    requires AllLexable(ts)
    ensures TokensFrom(Render(ts), 0) == ts
  {
    var s := Render(ts);
    assert s[0..] == s;
    RenderedAt(s, 0, ts);
  }
}
