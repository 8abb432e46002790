/**
 * The lexer (lexer.c): a cursor over a NUL-terminated input that yields one
 * token per call. The pure functions give the meaning of one call (`Lex`) and
 * of the whole stream (`TokensFrom`); the class `Lexer` is the cursor itself, and
 * its methods are proved to behave as `Lex` says.
 */
module Lexing {
  import opened Wrappers
  import opened Literals
  import opened Tokens

  /** `bufsize`: the longest name the lexer accepts. */
  const BufSize: nat := 100

  /** The three character classes whose runs the lexer consumes. */
  datatype CharClass = Space | Digit | Alpha

  /** `isspace` in the C locale: space, \t, \n, \v, \f, \r. */
  predicate IsSpace(c: char) {
    c == ' ' || '\t' <= c <= '\r'
  }

  /** `isalpha` in the C locale. */
  predicate IsAlpha(c: char) {
    'a' <= c <= 'z' || 'A' <= c <= 'Z'
  }

  predicate InClass(c: char, cls: CharClass) {
    match cls
    case Space => IsSpace(c)
    case Digit => IsDigit(c)
    case Alpha => IsAlpha(c)
  }

  /** `input[index]` of the C string: past the last character sits the NUL terminator. */
  function PeekAt(s: string, i: nat): char {
    if i < |s| then s[i] else '\0'
  }

  /** The end of the maximal run of class `cls` that starts at `i`. */
  function RunEnd(s: string, i: nat, cls: CharClass): (j: nat)
    requires i <= |s|
    ensures i <= j <= |s|
    ensures forall k :: i <= k < j ==> InClass(s[k], cls)
    ensures !InClass(PeekAt(s, j), cls)
    decreases |s| - i
  {
    if i < |s| && InClass(s[i], cls) then RunEnd(s, i + 1, cls) else i
  }

  /** The single-character tokens of the `switch` in `lexer_next_token`. */
  function Punctuator(c: char): Option<Kind> {
    match c
    case '+' => Some(Plus)
    case '-' => Some(Minus)
    case '*' => Some(Star)
    case '/' => Some(Slash)
    case '(' => Some(LParen)
    case ')' => Some(RParen)
    case ';' => Some(Semicolon)
    case _ => None
  }

  /** The keyword table of `lexer_name`. */
  function Keyword(word: string): Option<Kind> {
    if word == "laat" then Some(Laat)
    else if word == "het" then Some(Het)
    else if word == "zijn" then Some(Zijn)
    else if word == "print" then Some(Print)
    else if word == "uit" then Some(Uit)
    else if word == "en" then Some(En)
    else None
  }

  /** A captured run of letters becomes its keyword token or a name token. */
  function WordToken(word: string): Token {
    match Keyword(word)
    case Some(k) => Create(k)
    case None => CreateName(word)
  }

  function InvalidCharacter(c: char): string {
    "Invalid character: '" + [c] + "'"
  }

  /** The message of `%.10s`: the first ten letters of the over-long name. */
  function NameTooLong(prefix: string): string {
    "Name starting with \"" + prefix + "\" is too long!"
  }

  /** A token and the cursor position after it. */
  datatype Lexed = Lexed(token: Token, index: nat)

  /** `lexer_number` from position `i`: one number token for the maximal run of digits. */
  function LexNumber(s: string, i: nat): (r: Lexed)
    requires i <= |s|
    ensures r.token == CreateNumber(r.token.number)
    ensures i <= r.index <= |s| && !IsDigit(PeekAt(s, r.index))
    ensures forall k :: i <= k < r.index ==> IsDigit(s[k])
  {
    var e := RunEnd(s, i, Digit);
    Lexed(CreateNumber(DigitsValue(s[i..e])), e)
  }

  /**
   * `lexer_name` from position `i`: the maximal run of letters is consumed
   * whole; more than `BufSize` letters is an error, otherwise the run is a
   * keyword or a name.
   */
  function LexName(s: string, i: nat): (r: Lexed)
    requires i <= |s|
    ensures i <= r.index <= |s| && !IsAlpha(PeekAt(s, r.index))
    ensures forall k :: i <= k < r.index ==> IsAlpha(s[k])
    ensures r.token.error.Some? <==> r.index - i > BufSize
    ensures r.token.kind == Name ==> r.token.name == s[i..r.index]
  {
    var e := RunEnd(s, i, Alpha);
    if e - i > BufSize then Lexed(CreateError(NameTooLong(s[i..i + 10])), e)
    else Lexed(WordToken(s[i..e]), e)
  }

  /**
   * One call of `lexer_next_token` with the cursor at `i`. The cursor never
   * passes a NUL, it moves forward by at least one character unless the token
   * is `end`, and `end` is returned exactly when only whitespace separates the
   * cursor from the NUL; the cursor then rests on the NUL.
   */
  function Lex(s: string, i: nat): (r: Lexed)
    requires i <= |s|
    ensures i <= r.index <= |s|
    ensures forall k :: i <= k < r.index ==> s[k] != '\0'
    ensures r.token.kind == End <==> PeekAt(s, RunEnd(s, i, Space)) == '\0'
    ensures r.token.kind == End ==> r.token == Create(End) && r.index == RunEnd(s, i, Space)
    ensures r.token.kind != End ==> i < r.index
  {
    var j := RunEnd(s, i, Space);
    var c := PeekAt(s, j);
    if c == '\0' then Lexed(Create(End), j)
    else if Punctuator(c).Some? then Lexed(Create(Punctuator(c).value), j + 1)
    else if IsDigit(c) then LexNumber(s, j)
    else if IsAlpha(c) then LexName(s, j)
    else Lexed(CreateError(InvalidCharacter(c)), j + 1)
  }

  /** The tokens from position `i` up to, not including, the first `end`. */
  function TokensFrom(s: string, i: nat): (ts: seq<Token>)
    requires i <= |s|
    ensures forall k :: 0 <= k < |ts| ==> ts[k].kind != End
    decreases |s| - i
  {
    var r := Lex(s, i);
    if r.token.kind == End then [] else [r.token] + TokensFrom(s, r.index)
  }

  /** `struct lexer`: the input and the cursor into it. */
  class Lexer {
    const input: string
    var index: nat

    /** The cursor stays on or before the terminating NUL. */
    ghost predicate Valid()
      reads this
    {
      index <= |input| && forall k :: 0 <= k < index ==> input[k] != '\0'
    }

    /** `lexer_create`. */
    constructor (input: string)
      ensures Valid() && this.input == input && index == 0
    {
      this.input := input;
      index := 0;
    }

    /** `lexer_peek`. */
    function Peek(): (c: char)
      reads this
      requires Valid()
      ensures c == PeekAt(input, index)
    {
      if index < |input| then input[index] else '\0'
    }

    /** `lexer_consume`: advances unless the cursor is on the NUL. */
    method Consume()
      requires Valid()
      modifies this
      ensures Valid()
      ensures index == if PeekAt(input, old(index)) != '\0' then old(index) + 1 else old(index)
    {
      if Peek() != '\0' {
        index := index + 1;
      }
    }

    /** `lexer_next_token`. */
    method NextToken() returns (t: Token)
      requires Valid()
      modifies this
      ensures Valid() && Lexed(t, index) == Lex(input, old(index))
    {
      while IsSpace(Peek())
        invariant Valid() && old(index) <= index
        invariant RunEnd(input, index, Space) == RunEnd(input, old(index), Space)
        decreases |input| - index
      {
        Consume();
      }
      var kind: Kind;
      match Peek() {
      case '+' => kind := Plus;
      case '-' => kind := Minus;
      case '*' => kind := Star;
      case '/' => kind := Slash;
      case '(' => kind := LParen;
      case ')' => kind := RParen;
      case ';' => kind := Semicolon;
      case '\0' => kind := End;
      case _ =>
        if IsDigit(Peek()) {
          t := Number();
        } else if IsAlpha(Peek()) {
          t := Name();
        } else {
          var error := InvalidCharacter(Peek());
          Consume();
          t := CreateError(error);
        }
        return;
      }
      Consume();
      t := Create(kind);
    }

    /** `lexer_name`: captures letters into a buffer of `BufSize + 1` characters. */
    method Name() returns (t: Token)
      requires Valid()
      modifies this
      ensures Valid() && Lexed(t, index) == LexName(input, old(index))
    {
      var buf := new char[BufSize + 1](_ => '\0');
      var i := 0;
      while IsAlpha(Peek())
        invariant Valid() && index == old(index) + i && i <= BufSize
        invariant buf[..i] == input[old(index)..index]
        invariant RunEnd(input, index, Alpha) == RunEnd(input, old(index), Alpha)
        decreases |input| - index
      {
        if i >= BufSize {
          var error := NameTooLong(buf[..10]);
          assert buf[..10] == buf[..i][..10] == input[old(index)..old(index) + 10];
          while IsAlpha(Peek())
            invariant Valid() && old(index) + BufSize <= index
            invariant old(index) + BufSize < RunEnd(input, old(index), Alpha)
            invariant RunEnd(input, index, Alpha) == RunEnd(input, old(index), Alpha)
            decreases |input| - index
          {
            Consume();
          }
          assert index == RunEnd(input, index, Alpha);
          return CreateError(error);
        }
        buf[i] := Peek();
        Consume();
        i := i + 1;
      }
      var word := buf[..i];
      t := WordToken(word);
    }

    /** `lexer_number`: accumulates `n = n * 10 + digit`. */
    method Number() returns (t: Token)
      requires Valid()
      modifies this
      ensures Valid() && Lexed(t, index) == LexNumber(input, old(index))
    {
      var n: nat := 0;
      while IsDigit(Peek())
        invariant Valid() && old(index) <= index
        invariant AllDigits(input[old(index)..index])
        invariant n == DigitsValue(input[old(index)..index])
        invariant RunEnd(input, index, Digit) == RunEnd(input, old(index), Digit)
        decreases |input| - index
      {
        var run := input[old(index)..index + 1];
        assert run[..|run| - 1] == input[old(index)..index];
        n := n * 10 + DigitValue(Peek());
        Consume();
      }
      t := CreateNumber(n);
    }
  }
}
