/** Tokens: the variants the lexer produces and their display text (token.c). */
module Tokens {
  import opened Wrappers
  import Literals

  /** `enum token_type`; `NoneKind` is `token_none`, the kind of an error token. */
  datatype Kind =
    | Plus | Minus | Star | Slash | Semicolon | LParen | RParen
    | Number | Name
    | Laat | Het | Zijn | Print | Uit | En
    | End
    | NoneKind

  /**
   * `struct token`. The C union of `number_value` and `name_value` becomes two
   * fields; a constructor that does not set one leaves it zero, as the C
   * compound literals do. `error` is the owned diagnostic of an error token.
   */
  datatype Token = Token(kind: Kind, number: nat, name: string, error: Option<string>)

  /** `token_create`: a payload-free token of kind `k`. */
  function Create(k: Kind): (t: Token)
    ensures t.kind == k && t.error == None
    ensures t.number == 0 && t.name == ""
  {
    Token(k, 0, "", None)
  }

  /** `token_create_name`. */
  function CreateName(name: string): (t: Token)
    ensures t.kind == Name && t.name == name && t.error == None
  {
    Token(Name, 0, name, None)
  }

  /** `token_create_number`. */
  function CreateNumber(n: nat): (t: Token)
    ensures t.kind == Number && t.number == n && t.error == None
  {
    Token(Number, n, "", None)
  }

  /** `token_create_error`: every error token has kind `token_none`. */
  function CreateError(message: string): (t: Token)
    ensures t.kind == NoneKind && t.error == Some(message)
  {
    Token(NoneKind, 0, "", Some(message))
  }

  /** `token_type_to_string`: total over the enumeration. */
  function KindText(k: Kind): (s: string)
    ensures |s| >= 1
  {
    match k
    case Plus => "+"
    case Minus => "-"
    case Star => "*"
    case Slash => "/"
    case Semicolon => ";"
    case LParen => "("
    case RParen => ")"
    case Number => "number"
    case Name => "name"
    case Laat => "laat"
    case Het => "het"
    case Zijn => "zijn"
    case Print => "print"
    case Uit => "uit"
    case En => "en"
    case End => "end"
    case NoneKind => "none"
  }

  /** Reads a display text back; the inverse of `KindText`. */
  function KindOfText(s: string): (r: Option<Kind>)
    ensures r.Some? ==> KindText(r.value) == s
  {
    if s == "+" then Some(Plus)
    else if s == "-" then Some(Minus)
    else if s == "*" then Some(Star)
    else if s == "/" then Some(Slash)
    else if s == ";" then Some(Semicolon)
    else if s == "(" then Some(LParen)
    else if s == ")" then Some(RParen)
    else if s == "number" then Some(Number)
    else if s == "name" then Some(Name)
    else if s == "laat" then Some(Laat)
    else if s == "het" then Some(Het)
    else if s == "zijn" then Some(Zijn)
    else if s == "print" then Some(Print)
    else if s == "uit" then Some(Uit)
    else if s == "en" then Some(En)
    else if s == "end" then Some(End)
    else if s == "none" then Some(NoneKind)
    else None
  }

  /** Every kind has its own display text. */
  lemma KindTextRoundTrip(k: Kind)
    ensures KindOfText(KindText(k)) == Some(k)
  {
  }

  lemma KindTextInjective(a: Kind, b: Kind)
    ensures KindText(a) == KindText(b) ==> a == b
  {
    KindTextRoundTrip(a);
    KindTextRoundTrip(b);
  }

  /** `token_to_string`: `<"text">`, `<n.00000>` or `<kind>`. */
  function ToString(t: Token): string {
    if t.kind == Name then "<\"" + t.name + "\">"
    else if t.kind == Number then "<" + Literals.FormatFixed5(t.number) + ">"
    else "<" + KindText(t.kind) + ">"
  }

  /** The rendering is enclosed in `<` and `>`; the character after `<` tells the three cases apart. */
  lemma ToStringCases(t: Token)
    ensures var r := ToString(t);
      && |r| >= 3 && r[0] == '<' && r[|r| - 1] == '>'
      && (r[1] == '"' <==> t.kind == Name)
      && (Literals.IsDigit(r[1]) <==> t.kind == Number)
  {
  }

  /** What `ToString` shows of a token: its kind and the payload that kind carries. */
  function Shown(t: Token): (Kind, nat, string) {
    if t.kind == Name then (Name, 0, t.name)
    else if t.kind == Number then (Number, t.number, "")
    else (t.kind, 0, "")
  }

  /**
   * The rendering identifies the token: two tokens that print alike have the
   * same kind and the same payload for that kind.
   */
  lemma ToStringInjective(a: Token, b: Token)
    ensures ToString(a) == ToString(b) ==> Shown(a) == Shown(b)
  {
    if ToString(a) == ToString(b) {
      var s := ToString(a);
      if a.kind == Name {
        assert s[1] == '"';
        NameShown(a, b);
      } else if a.kind == Number {
        assert Literals.IsDigit(s[1]);
        NumberShown(a, b);
      } else {
        assert !Literals.IsDigit(s[1]) && s[1] != '"';
        assert b.kind != Name && b.kind != Number;
        assert KindText(a.kind) == s[1..|s| - 1] == KindText(b.kind);
        KindTextInjective(a.kind, b.kind);
      }
    }
  }

  lemma NameShown(a: Token, b: Token)
    requires a.kind == Name && ToString(a) == ToString(b)
    ensures Shown(a) == Shown(b)
  {
    var s := ToString(a);
    assert s[1] == '"';
    assert b.kind == Name;
    assert a.name == s[2..|s| - 2] == b.name;
  }

  lemma NumberShown(a: Token, b: Token)
    requires a.kind == Number && ToString(a) == ToString(b)
    ensures Shown(a) == Shown(b)
  {
    var s := ToString(a);
    assert Literals.IsDigit(s[1]);
    assert b.kind == Number;
    assert Literals.FormatFixed5(a.number) == s[1..|s| - 1] == Literals.FormatFixed5(b.number);
    Literals.FormatFixed5Injective(a.number, b.number);
  }
}
