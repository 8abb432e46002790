/**
 * Grammar: what each routine of the recursive-descent parser (parser.c)
 * computes, as functions over the token stream still ahead of it. A stream
 * is the list of tokens the lexer has yet to deliver, the current lookahead
 * first; the empty list stands for a lookahead of `end`. Every function
 * returns the routine's result together with the stream left after it, so
 * the imperative parser can be proved to follow them step by step.
 */
module Grammar {
  import opened Wrappers
  import opened Tokens
  import Ast

  /** `struct parser_result` together with the tokens left after the routine. */
  datatype Parsed = Parsed(result: Result<Ast.Node>, rest: seq<Token>)

  /** The parser's lookahead on stream `ts`. */
  function Lookahead(ts: seq<Token>): (t: Token)
    ensures ts == [] ==> t == Create(End)
    ensures ts != [] ==> t == ts[0]
  {
    if ts == [] then Create(End) else ts[0]
  }

  /** `parser_consume`: the next token becomes the lookahead; at `end` nothing moves. */
  function Advance(ts: seq<Token>): (rest: seq<Token>)
    ensures ts == [] ==> rest == []
    ensures ts != [] ==> |rest| == |ts| - 1 && rest == ts[1..]
  {
    if ts == [] then [] else ts[1..]
  }

  /** The condition under which `parser_expect` consumes: no lexer error and the wanted kind. */
  predicate Accepts(ts: seq<Token>, k: Kind) {
    Lookahead(ts).error.None? && Lookahead(ts).kind == k
  }

  /**
   * `parser_error`: the lexer's own message when the lookahead is an error
   * token, otherwise "Want <want>, got <lookahead>.".
   */
  function ErrorAt(ts: seq<Token>, want: string): (m: string)
    ensures Lookahead(ts).error.Some? ==> m == Lookahead(ts).error.value
    ensures Lookahead(ts).error.None? ==>
      m == "Want " + want + ", got " + Tokens.ToString(Lookahead(ts)) + "."
  {
    var la := Lookahead(ts);
    if la.error.Some? then la.error.value
    else "Want " + want + ", got " + Tokens.ToString(la) + "."
  }

  /** A routine that reports `parser_error` without consuming anything. */
  function Fail(ts: seq<Token>, want: string): Parsed {
    Parsed(Err(ErrorAt(ts, want)), ts)
  }

  /** A binary node built as the loops build it: the operator, then left, then right. */
  function Binary(op: Ast.Kind, left: Ast.Node, right: Ast.Node): (n: Ast.Node)
    ensures n == Ast.Node(op, 0, "", [left, right])
    ensures n == Ast.WithChildren(Ast.Create(op), [left, right])
  {
    Ast.AddChild(Ast.AddChild(Ast.Create(op), left), right)
  }

  /** The AST operator for an additive token, if it is one. */
  function AddOp(k: Kind): Option<Ast.Kind> {
    if k == Plus then Some(Ast.Plus) else if k == Minus then Some(Ast.Minus) else None
  }

  /** The AST operator for a multiplicative token, if it is one. */
  function MulOp(k: Kind): Option<Ast.Kind> {
    if k == Star then Some(Ast.Star) else if k == Slash then Some(Ast.Slash) else None
  }

  /** The common contract of a routine: it never grows the stream, and success consumes. */
  predicate Progress(ts: seq<Token>, r: Parsed) {
    |r.rest| <= |ts| && (r.result.Ok? ==> |r.rest| < |ts|)
  }

  /** `parser_value`: a number, a name, `het`, or a parenthesised expression. */
  function Value(ts: seq<Token>): (r: Parsed)
    ensures Progress(ts, r)
    ensures r.result.Ok? ==> Ast.WellFormedExpr(r.result.value)
    decreases |ts|, 0
  {
    var la := Lookahead(ts);
    if la.error.Some? then Parsed(Err(la.error.value), ts)
    else if la.kind == Number then Parsed(Ok(Ast.CreateNumber(la.number)), Advance(ts))
    else if la.kind == Name then Parsed(Ok(Ast.CreateName(la.name)), Advance(ts))
    else if la.kind == Het then Parsed(Ok(Ast.Create(Ast.Het)), Advance(ts))
    else if la.kind == LParen then
      var e := Expression(Advance(ts));
      if e.result.Err? then e
      else if Accepts(e.rest, RParen) then Parsed(e.result, Advance(e.rest))
      else Fail(e.rest, KindText(RParen))
    else Fail(ts, "number, name, het, or(")
  }

  /** The `for (;;)` loop of `parser_mul`, with `left` the tree folded so far. */
  function MulLoop(left: Ast.Node, ts: seq<Token>): (r: Parsed)
    requires Ast.WellFormedExpr(left)
    ensures |r.rest| <= |ts|
    ensures r.result.Ok? ==> Ast.WellFormedExpr(r.result.value)
    decreases |ts|, 1
  {
    var la := Lookahead(ts);
    if la.error.Some? then Parsed(Err(la.error.value), ts)
    else if MulOp(la.kind).None? then Parsed(Ok(left), ts)
    else
      var v := Value(Advance(ts));
      if v.result.Err? then v
      else MulLoop(Binary(MulOp(la.kind).value, left, v.result.value), v.rest)
  }

  /** `parser_mul`: values joined by `*` and `/`, folded to the left. */
  function Mul(ts: seq<Token>): (r: Parsed)
    ensures Progress(ts, r)
    ensures r.result.Ok? ==> Ast.WellFormedExpr(r.result.value)
    decreases |ts|, 2
  {
    var v := Value(ts);
    if v.result.Err? then v else MulLoop(v.result.value, v.rest)
  }

  /** The `for (;;)` loop of `parser_expression`, with `left` the tree folded so far. */
  function ExprLoop(left: Ast.Node, ts: seq<Token>): (r: Parsed)
    requires Ast.WellFormedExpr(left)
    ensures |r.rest| <= |ts|
    ensures r.result.Ok? ==> Ast.WellFormedExpr(r.result.value)
    decreases |ts|, 3
  {
    var la := Lookahead(ts);
    if la.error.Some? then Parsed(Err(la.error.value), ts)
    else if AddOp(la.kind).None? then Parsed(Ok(left), ts)
    else
      var m := Mul(Advance(ts));
      if m.result.Err? then m
      else ExprLoop(Binary(AddOp(la.kind).value, left, m.result.value), m.rest)
  }

  /** `parser_expression`: terms joined by `+` and `-`, folded to the left. */
  function Expression(ts: seq<Token>): (r: Parsed)
    ensures Progress(ts, r)
    ensures r.result.Ok? ==> Ast.WellFormedExpr(r.result.value)
    decreases |ts|, 4
  {
    var m := Mul(ts);
    if m.result.Err? then m else ExprLoop(m.result.value, m.rest)
  }

  /** `parser_assignment`: `laat <name> <expression> zijn`. */
  function Assignment(ts: seq<Token>): (r: Parsed)
    ensures Progress(ts, r)
    ensures r.result.Ok? ==> Ast.WellFormedStatement(r.result.value)
  {
    if !Accepts(ts, Laat) then Fail(ts, KindText(Laat))
    else
      var ts1 := Advance(ts);
      var target := Lookahead(ts1);
      if target.error.Some? || target.kind != Name then Fail(ts1, KindText(Name))
      else
        var e := Expression(Advance(ts1));
        if e.result.Err? then e
        else if !Accepts(e.rest, Zijn) then Fail(e.rest, KindText(Zijn))
        else
          var assign := Ast.AddChild(Ast.AddChild(Ast.Create(Ast.Assign), Ast.CreateName(target.name)), e.result.value);
          Parsed(Ok(assign), Advance(e.rest))
  }

  /** `parser_print`: `print <expression> uit`. */
  function PrintStatement(ts: seq<Token>): (r: Parsed)
    ensures Progress(ts, r)
    ensures r.result.Ok? ==> Ast.WellFormedStatement(r.result.value)
  {
    if !Accepts(ts, Print) then Fail(ts, KindText(Print))
    else
      var e := Expression(Advance(ts));
      if e.result.Err? then e
      else if !Accepts(e.rest, Uit) then Fail(e.rest, KindText(Uit))
      else Parsed(Ok(Ast.AddChild(Ast.Create(Ast.Print), e.result.value)), Advance(e.rest))
  }

  /** `parser_statement`: an assignment or a print, then `;`. */
  function Statement(ts: seq<Token>): (r: Parsed)
    ensures Progress(ts, r)
    ensures r.result.Ok? ==> Ast.WellFormedStatement(r.result.value)
  {
    var la := Lookahead(ts);
    if la.kind != Laat && la.kind != Print then Fail(ts, "assignment or print")
    else
      var s := if la.kind == Laat then Assignment(ts) else PrintStatement(ts);
      if s.result.Err? then s
      else if !Accepts(s.rest, Semicolon) then Fail(s.rest, KindText(Semicolon))
      else Parsed(s.result, Advance(s.rest))
  }

  /** The `while` loop of `parser_program`, with `prog` the program built so far. */
  function ProgramLoop(prog: Ast.Node, ts: seq<Token>): (r: Parsed)
    requires Ast.WellFormedProgram(prog)
    ensures |r.rest| <= |ts|
    ensures r.result.Ok? ==> Ast.WellFormedProgram(r.result.value) && Lookahead(r.rest).kind == End
    decreases |ts|
  {
    if Lookahead(ts).kind == End then Parsed(Ok(prog), ts)
    else
      var s := Statement(ts);
      if s.result.Err? then s
      else ProgramLoop(Ast.AddChild(prog, s.result.value), s.rest)
  }

  /** `parser_program`: statements up to the end of the input. */
  function Program(ts: seq<Token>): (r: Parsed)
    ensures |r.rest| <= |ts|
    ensures r.result.Ok? ==> Ast.WellFormedProgram(r.result.value) && Lookahead(r.rest).kind == End
  {
    ProgramLoop(Ast.Create(Ast.Program), ts)
  }

  /** `parser_parse`: a program, then `end`. */
  function Parse(ts: seq<Token>): (r: Parsed)
    ensures |r.rest| <= |ts|
    ensures r.result.Ok? ==> Ast.WellFormedProgram(r.result.value)
  {
    var p := Program(ts);
    if p.result.Err? then p
    else if !Accepts(p.rest, End) then Fail(p.rest, KindText(End))
    else Parsed(p.result, Advance(p.rest))
  }
}
