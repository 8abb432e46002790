/**
 * GrammarProperties: what the parser guarantees, stated over the `Grammar`
 * functions. An unparser writes any well-formed program back as tokens, with
 * parentheses exactly where precedence and left associativity need them, and
 * parsing its output gives the program back. Lexer errors take priority over
 * syntax errors, and the tests' example inputs give the expected trees and
 * rejections.
 */
module GrammarProperties {
  import opened Wrappers
  import opened Tokens
  import Ast
  import opened Grammar

  predicate IsAdditive(e: Ast.Node) {
    e.kind == Ast.Plus || e.kind == Ast.Minus
  }

  predicate IsMultiplicative(e: Ast.Node) {
    e.kind == Ast.Star || e.kind == Ast.Slash
  }

  /** The token that the parser turns into an operator node of kind `k`. */
  function OperatorToken(k: Ast.Kind): (t: Token)
    requires Ast.IsOperator(k)
    ensures t == Create(t.kind)
    ensures AddOp(t.kind) == (if k in {Ast.Plus, Ast.Minus} then Some(k) else None)
    ensures MulOp(t.kind) == (if k in {Ast.Star, Ast.Slash} then Some(k) else None)
  {
    match k
    case Plus => Create(Plus)
    case Minus => Create(Minus)
    case Star => Create(Star)
    case Slash => Create(Slash)
  }

  /** The token that `parser_value` turns into the leaf `e`. */
  function LeafToken(e: Ast.Node): (t: Token)
    requires Ast.WellFormedExpr(e) && !Ast.IsOperator(e.kind)
    ensures t.error.None? && t.kind in {Number, Name, Het}
  {
    if e.kind == Ast.Number then CreateNumber(e.number)
    else if e.kind == Ast.Name then Tokens.CreateName(e.name)
    else Create(Het)
  }

  /** Tokens of an expression at `+`/`-` level: the left operand is not parenthesised. */
  function UnparseExpr(e: Ast.Node): seq<Token>
    requires Ast.WellFormedExpr(e)
    decreases e, 2
  {
    if IsAdditive(e) then
      UnparseExpr(e.children[0]) + [OperatorToken(e.kind)] + UnparseTerm(e.children[1])
    else UnparseTerm(e)
  }

  /** Tokens of an expression at `*`/`/` level. */
  function UnparseTerm(e: Ast.Node): seq<Token>
    requires Ast.WellFormedExpr(e)
    decreases e, 1
  {
    if IsMultiplicative(e) then
      UnparseTerm(e.children[0]) + [OperatorToken(e.kind)] + UnparseAtom(e.children[1])
    else UnparseAtom(e)
  }

  /** Tokens of an operand: a leaf token, or an operator tree in parentheses. */
  function UnparseAtom(e: Ast.Node): seq<Token>
    requires Ast.WellFormedExpr(e)
    decreases e, 0
  {
    if IsAdditive(e) then
      [Create(LParen)] + UnparseExpr(e.children[0]) + [OperatorToken(e.kind)]
      + UnparseTerm(e.children[1]) + [Create(RParen)]
    else if IsMultiplicative(e) then
      [Create(LParen)] + UnparseTerm(e.children[0]) + [OperatorToken(e.kind)]
      + UnparseAtom(e.children[1]) + [Create(RParen)]
    else [LeafToken(e)]
  }

  /** Tokens of a statement, with its closing `;`. */
  function UnparseStatement(s: Ast.Node): seq<Token>
    requires Ast.WellFormedStatement(s)
  {
    if s.kind == Ast.Print then
      [Create(Print)] + UnparseExpr(s.children[0]) + [Create(Uit), Create(Semicolon)]
    else
      [Create(Laat), Tokens.CreateName(s.children[0].name)] + UnparseExpr(s.children[1])
      + [Create(Zijn), Create(Semicolon)]
  }

  /** Tokens of a list of statements, one after the other. */
  function UnparseStatements(ss: seq<Ast.Node>): seq<Token>
    requires forall k :: 0 <= k < |ss| ==> Ast.WellFormedStatement(ss[k])
    decreases |ss|
  {
    if ss == [] then [] else UnparseStatement(ss[0]) + UnparseStatements(ss[1..])
  }

  /** Tokens of a program. */
  function UnparseProgram(p: Ast.Node): seq<Token>
    requires Ast.WellFormedProgram(p)
  {
    UnparseStatements(p.children)
  }

  /** The lookahead of `rest` neither is an error nor continues an expression at `*` level. */
  predicate EndsTerm(rest: seq<Token>) {
    Lookahead(rest).error.None? && MulOp(Lookahead(rest).kind).None?
  }

  /** ... nor at `+` level. */
  predicate EndsExpr(rest: seq<Token>) {
    EndsTerm(rest) && AddOp(Lookahead(rest).kind).None?
  }

  /** The ordering that makes the three round-trip lemmas below a well-founded induction. */
  function Rank(e: Ast.Node, level: nat): nat {
    if IsAdditive(e) then [1, 3, 2][level % 3]
    else if IsMultiplicative(e) then [2, 1, 3][level % 3]
    else [3, 2, 1][level % 3]
  }

  // One unfolding of a grammar function each, so that the inductions below only compose.

  lemma ValueLeaf(e: Ast.Node, rest: seq<Token>)
    requires Ast.WellFormedExpr(e) && !Ast.IsOperator(e.kind)
    ensures Value([LeafToken(e)] + rest) == Parsed(Ok(e), rest)
  {
    assert Advance([LeafToken(e)] + rest) == rest;
  }

  lemma ValueParen(inner: seq<Token>, e: Ast.Node, rest: seq<Token>)
    requires Expression(inner) == Parsed(Ok(e), [Create(RParen)] + rest)
    ensures Value([Create(LParen)] + inner) == Parsed(Ok(e), rest)
  {
    assert Advance([Create(LParen)] + inner) == inner;
    assert Advance([Create(RParen)] + rest) == rest;
  }

  /** A parenthesised expression without its `)` is rejected where the `)` is due. */
  lemma ValueUnclosed(inner: seq<Token>, e: Ast.Node, rest: seq<Token>)
    requires Expression(inner) == Parsed(Ok(e), rest) && !Accepts(rest, RParen)
    ensures Value([Create(LParen)] + inner) == Parsed(Err(ErrorAt(rest, ")")), rest)
  {
    var ts := [Create(LParen)] + inner;
    assert Advance(ts) == inner;
    assert Value(ts) == Fail(rest, KindText(RParen));
  }

  lemma MulStart(ts: seq<Token>, e: Ast.Node, rest: seq<Token>)
    requires Value(ts) == Parsed(Ok(e), rest)
    ensures Mul(ts) == MulLoop(e, rest)
  {
  }

  lemma MulLoopStep(left: Ast.Node, op: Ast.Kind, after: seq<Token>, right: Ast.Node, rest: seq<Token>)
    requires Ast.WellFormedExpr(left) && op in {Ast.Star, Ast.Slash}
    requires Value(after) == Parsed(Ok(right), rest)
    ensures MulLoop(left, [OperatorToken(op)] + after) == MulLoop(Ast.Node(op, 0, "", [left, right]), rest)
  {
    assert Advance([OperatorToken(op)] + after) == after;
  }

  lemma MulLoopStop(left: Ast.Node, rest: seq<Token>)
    requires Ast.WellFormedExpr(left) && EndsTerm(rest)
    ensures MulLoop(left, rest) == Parsed(Ok(left), rest)
  {
  }

  lemma ExprStart(ts: seq<Token>, e: Ast.Node, rest: seq<Token>)
    requires Mul(ts) == Parsed(Ok(e), rest)
    ensures Expression(ts) == ExprLoop(e, rest)
  {
  }

  lemma ExprLoopStep(left: Ast.Node, op: Ast.Kind, after: seq<Token>, right: Ast.Node, rest: seq<Token>)
    requires Ast.WellFormedExpr(left) && op in {Ast.Plus, Ast.Minus}
    requires Mul(after) == Parsed(Ok(right), rest)
    ensures ExprLoop(left, [OperatorToken(op)] + after) == ExprLoop(Ast.Node(op, 0, "", [left, right]), rest)
  {
    assert Advance([OperatorToken(op)] + after) == after;
  }

  lemma ExprLoopStop(left: Ast.Node, rest: seq<Token>)
    requires Ast.WellFormedExpr(left) && EndsExpr(rest)
    ensures ExprLoop(left, rest) == Parsed(Ok(left), rest)
  {
  }

  lemma Regroup(a: seq<Token>, op: Token, b: seq<Token>, rest: seq<Token>)
    ensures a + [op] + b + rest == a + ([op] + (b + rest))
  {
  }

  lemma OperatorNode(e: Ast.Node)
    requires Ast.WellFormedExpr(e) && Ast.IsOperator(e.kind)
    ensures e == Ast.Node(e.kind, 0, "", [e.children[0], e.children[1]])
  {
    assert e.children == [e.children[0], e.children[1]];
  }

  /** An operator tree as an operand is its expression's tokens in parentheses. */
  lemma Parenthesised(e: Ast.Node, rest: seq<Token>)
    requires Ast.WellFormedExpr(e) && Ast.IsOperator(e.kind)
    ensures UnparseAtom(e) + rest == [Create(LParen)] + (UnparseExpr(e) + ([Create(RParen)] + rest))
  {
    AtomBracketsExpr(e);
    Enclose(Create(LParen), UnparseExpr(e), Create(RParen), rest);
  }

  lemma AtomBracketsExpr(e: Ast.Node)
    requires Ast.WellFormedExpr(e) && Ast.IsOperator(e.kind)
    ensures UnparseAtom(e) == [Create(LParen)] + UnparseExpr(e) + [Create(RParen)]
  {
    var l, r, op := e.children[0], e.children[1], OperatorToken(e.kind);
    if IsAdditive(e) {
      Bracket([Create(LParen)], UnparseExpr(l), [op], UnparseTerm(r), [Create(RParen)]);
    } else {
      assert UnparseExpr(e) == UnparseTerm(l) + [op] + UnparseAtom(r);
      Bracket([Create(LParen)], UnparseTerm(l), [op], UnparseAtom(r), [Create(RParen)]);
    }
  }

  lemma Bracket(open: seq<Token>, a: seq<Token>, op: seq<Token>, b: seq<Token>, close: seq<Token>)
    ensures open + a + op + b + close == open + (a + op + b) + close
  {
  }

  lemma Enclose(open: Token, body: seq<Token>, close: Token, rest: seq<Token>)
    ensures [open] + body + [close] + rest == [open] + (body + ([close] + rest))
  {
  }

  /** An operand's tokens are parsed back by `parser_value`, which stops right after them. */
  lemma {:induction false} AtomRoundTrip(e: Ast.Node, rest: seq<Token>)
    requires Ast.WellFormedExpr(e)
    ensures Value(UnparseAtom(e) + rest) == Parsed(Ok(e), rest)
    decreases e, Rank(e, 2)
  {
    if Ast.IsOperator(e.kind) {
      var close := [Create(RParen)] + rest;
      var inner := UnparseExpr(e) + close;
      Parenthesised(e, rest);
      ExprLoopRoundTrip(e, close);
      ExprLoopStop(e, close);
      ValueParen(inner, e, rest);
    } else {
      ValueLeaf(e, rest);
    }
  }

  /** A term's tokens are parsed by `parser_mul` up to its loop, which then holds the term. */
  lemma {:induction false} TermRoundTrip(e: Ast.Node, rest: seq<Token>)
    requires Ast.WellFormedExpr(e) && Lookahead(rest).error.None?
    ensures Mul(UnparseTerm(e) + rest) == MulLoop(e, rest)
    decreases e, Rank(e, 1)
  {
    if IsMultiplicative(e) {
      var l, r := e.children[0], e.children[1];
      var after := UnparseAtom(r) + rest;
      var rest' := [OperatorToken(e.kind)] + after;
      Regroup(UnparseTerm(l), OperatorToken(e.kind), UnparseAtom(r), rest);
      OperatorNode(e);
      TermRoundTrip(l, rest');
      AtomRoundTrip(r, rest);
      MulLoopStep(l, e.kind, after, r, rest);
    } else {
      AtomRoundTrip(e, rest);
      MulStart(UnparseAtom(e) + rest, e, rest);
    }
  }

  /** An expression's tokens are parsed by `parser_expression` up to its loop, which then holds it. */
  lemma {:induction false} ExprLoopRoundTrip(e: Ast.Node, rest: seq<Token>)
    requires Ast.WellFormedExpr(e) && EndsTerm(rest)
    ensures Expression(UnparseExpr(e) + rest) == ExprLoop(e, rest)
    decreases e, Rank(e, 0)
  {
    if IsAdditive(e) {
      var l, r := e.children[0], e.children[1];
      var after := UnparseTerm(r) + rest;
      var rest' := [OperatorToken(e.kind)] + after;
      Regroup(UnparseExpr(l), OperatorToken(e.kind), UnparseTerm(r), rest);
      OperatorNode(e);
      ExprLoopRoundTrip(l, rest');
      TermRoundTrip(r, rest);
      MulLoopStop(r, rest);
      ExprLoopStep(l, e.kind, after, r, rest);
    } else {
      TermRoundTrip(e, rest);
      MulLoopStop(e, rest);
      ExprStart(UnparseTerm(e) + rest, e, rest);
    }
  }

  /** An expression's tokens are parsed back by `parser_expression`, which stops right after them. */
  lemma ExprRoundTrip(e: Ast.Node, rest: seq<Token>)
    requires Ast.WellFormedExpr(e) && EndsExpr(rest)
    ensures Expression(UnparseExpr(e) + rest) == Parsed(Ok(e), rest)
  {
    ExprLoopRoundTrip(e, rest);
    ExprLoopStop(e, rest);
  }

  lemma PrintStep(after: seq<Token>, x: Ast.Node, rest: seq<Token>)
    requires Expression(after) == Parsed(Ok(x), [Create(Uit)] + rest)
    ensures PrintStatement([Create(Print)] + after) == Parsed(Ok(Ast.Node(Ast.Print, 0, "", [x])), rest)
  {
    assert Advance([Create(Print)] + after) == after;
    assert Advance([Create(Uit)] + rest) == rest;
  }

  lemma AssignStep(name: string, after: seq<Token>, x: Ast.Node, rest: seq<Token>)
    requires Expression(after) == Parsed(Ok(x), [Create(Zijn)] + rest)
    ensures Assignment([Create(Laat), Tokens.CreateName(name)] + after)
      == Parsed(Ok(Ast.Node(Ast.Assign, 0, "", [Ast.CreateName(name), x])), rest)
  {
    var ts := [Create(Laat), Tokens.CreateName(name)] + after;
    AssignHead(name, after);
    assert Advance([Create(Zijn)] + rest) == rest;
    AssignNode(name, x);
  }

  lemma AssignHead(name: string, after: seq<Token>)
    ensures var ts := [Create(Laat), Tokens.CreateName(name)] + after;
      Accepts(ts, Laat) && Lookahead(Advance(ts)) == Tokens.CreateName(name) && Advance(Advance(ts)) == after
  {
    var ts := [Create(Laat), Tokens.CreateName(name)] + after;
    assert Advance(ts) == [Tokens.CreateName(name)] + after;
  }

  lemma AssignNode(name: string, x: Ast.Node)
    ensures Ast.AddChild(Ast.AddChild(Ast.Create(Ast.Assign), Ast.CreateName(name)), x)
      == Ast.Node(Ast.Assign, 0, "", [Ast.CreateName(name), x])
  {
  }

  lemma StatementStep(ts: seq<Token>, s: Ast.Node, rest: seq<Token>)
    requires Lookahead(ts).kind == Laat ==> Assignment(ts) == Parsed(Ok(s), [Create(Semicolon)] + rest)
    requires Lookahead(ts).kind == Print ==> PrintStatement(ts) == Parsed(Ok(s), [Create(Semicolon)] + rest)
    requires Lookahead(ts).kind in {Laat, Print}
    ensures Statement(ts) == Parsed(Ok(s), rest)
  {
    assert Advance([Create(Semicolon)] + rest) == rest;
  }

  /** A statement's tokens are parsed back by `parser_statement`, which stops right after its `;`. */
  lemma StatementRoundTrip(s: Ast.Node, rest: seq<Token>)
    requires Ast.WellFormedStatement(s)
    ensures Statement(UnparseStatement(s) + rest) == Parsed(Ok(s), rest)
  {
    if s.kind == Ast.Print {
      PrintRoundTrip(s, rest);
    } else {
      AssignRoundTrip(s, rest);
    }
  }

  lemma PrintRoundTrip(s: Ast.Node, rest: seq<Token>)
    requires Ast.WellFormedStatement(s) && s.kind == Ast.Print
    ensures Statement(UnparseStatement(s) + rest) == Parsed(Ok(s), rest)
  {
    var close := [Create(Semicolon)] + rest;
    var x := s.children[0];
    var after := UnparseExpr(x) + ([Create(Uit)] + close);
    StatementRegroup([Create(Print)], UnparseExpr(x), Create(Uit), rest);
    assert UnparseStatement(s) + rest == [Create(Print)] + after;
    ExprRoundTrip(x, [Create(Uit)] + close);
    PrintStep(after, x, close);
    assert s.children == [x];
    StatementStep([Create(Print)] + after, s, rest);
  }

  lemma AssignRoundTrip(s: Ast.Node, rest: seq<Token>)
    requires Ast.WellFormedStatement(s) && s.kind == Ast.Assign
    ensures Statement(UnparseStatement(s) + rest) == Parsed(Ok(s), rest)
  {
    var close := [Create(Semicolon)] + rest;
    var target, x := s.children[0], s.children[1];
    var after := UnparseExpr(x) + ([Create(Zijn)] + close);
    var ts := [Create(Laat), Tokens.CreateName(target.name)] + after;
    StatementRegroup([Create(Laat), Tokens.CreateName(target.name)], UnparseExpr(x), Create(Zijn), rest);
    assert UnparseStatement(s) + rest == ts;
    AssignmentParsed(s, close);
    StatementStep(ts, s, rest);
  }

  /** The tokens of an assignment up to its `zijn` are parsed back to it. */
  lemma AssignmentParsed(s: Ast.Node, close: seq<Token>)
    requires Ast.WellFormedStatement(s) && s.kind == Ast.Assign
    ensures var after := UnparseExpr(s.children[1]) + ([Create(Zijn)] + close);
      Assignment([Create(Laat), Tokens.CreateName(s.children[0].name)] + after) == Parsed(Ok(s), close)
  {
    var target, x := s.children[0], s.children[1];
    ExprRoundTrip(x, [Create(Zijn)] + close);
    AssignStep(target.name, UnparseExpr(x) + ([Create(Zijn)] + close), x, close);
    assert s.children == [target, x];
  }

  /** A statement's tokens followed by `rest`, grouped as the parser consumes them. */
  lemma StatementRegroup(head: seq<Token>, body: seq<Token>, keyword: Token, rest: seq<Token>)
    ensures head + body + [keyword, Create(Semicolon)] + rest
      == head + (body + ([keyword] + ([Create(Semicolon)] + rest)))
  {
  }

  lemma ProgramStops(prog: Ast.Node, ts: seq<Token>)
    requires Ast.WellFormedProgram(prog) && Lookahead(ts).kind != End
    requires Statement(ts).result.Err?
    ensures ProgramLoop(prog, ts) == Statement(ts)
  {
  }

  lemma ProgramStep(prog: Ast.Node, ts: seq<Token>, s: Ast.Node, rest: seq<Token>)
    requires Ast.WellFormedProgram(prog) && Lookahead(ts).kind != End
    requires Statement(ts) == Parsed(Ok(s), rest)
    ensures ProgramLoop(prog, ts) == ProgramLoop(Ast.AddChild(prog, s), rest)
  {
  }

  lemma ShiftFirst(a: seq<Ast.Node>, b: seq<Ast.Node>)
    requires b != []
    ensures (a + [b[0]]) + b[1..] == a + b
  {
    assert b == [b[0]] + b[1..];
  }

  /** Every node of `ss` is a statement. */
  predicate AllStatements(ss: seq<Ast.Node>) {
    forall k :: 0 <= k < |ss| ==> Ast.WellFormedStatement(ss[k])
  }

  lemma StatementsCons(ss: seq<Ast.Node>, rest: seq<Token>)
    requires AllStatements(ss) && ss != []
    ensures AllStatements(ss[1..])
    ensures UnparseStatements(ss) + rest == UnparseStatement(ss[0]) + (UnparseStatements(ss[1..]) + rest)
    ensures Lookahead(UnparseStatement(ss[0]) + (UnparseStatements(ss[1..]) + rest)).kind in {Laat, Print}
  {
  }

  /** The statements' tokens are parsed by the loop of `parser_program`, which appends each in turn. */
  lemma {:induction false} ProgramLoopRoundTrip(prog: Ast.Node, ss: seq<Ast.Node>, rest: seq<Token>)
    requires Ast.WellFormedProgram(prog) && AllStatements(ss)
    requires Lookahead(rest).kind == End
    ensures ProgramLoop(prog, UnparseStatements(ss) + rest)
      == Parsed(Ok(Ast.Node(Ast.Program, 0, "", prog.children + ss)), rest)
    decreases |ss|
  {
    if ss == [] {
      assert prog.children + ss == prog.children;
      assert UnparseStatements(ss) + rest == rest;
    } else {
      var after := UnparseStatements(ss[1..]) + rest;
      var ts := UnparseStatement(ss[0]) + after;
      StatementsCons(ss, rest);
      StatementRoundTrip(ss[0], after);
      var prog' := Ast.AddChild(prog, ss[0]);
      ProgramStep(prog, ts, ss[0], after);
      ProgramLoopRoundTrip(prog', ss[1..], rest);
      ShiftFirst(prog.children, ss);
    }
  }

  lemma UnparseOne(p: Ast.Node)
    requires Ast.WellFormedProgram(p) && |p.children| == 1
    ensures UnparseProgram(p) == UnparseStatement(p.children[0])
  {
    assert UnparseStatements(p.children[1..]) == [];
  }

  /** Parsing inverts unparsing: every well-formed program is parsed back from its tokens. */
  lemma ParseRoundTrip(p: Ast.Node)
    requires Ast.WellFormedProgram(p)
    ensures Parse(UnparseProgram(p)) == Parsed(Ok(p), [])
  {
    ProgramLoopRoundTrip(Ast.Create(Ast.Program), p.children, []);
    assert UnparseProgram(p) + [] == UnparseProgram(p);
    assert [] + p.children == p.children;
  }

  /**
   * A lexer error in the lookahead is reported verbatim by every routine
   * that starts there, and it stops the whole parse.
   */
  lemma LexerErrorFirst(ts: seq<Token>)
    requires Lookahead(ts).error.Some?
    ensures var failure := Parsed(Err(Lookahead(ts).error.value), ts);
      && Value(ts) == failure && Mul(ts) == failure && Expression(ts) == failure
      && Statement(ts) == failure && Parse(ts).result == failure.result
  {
  }

  /** Empty input parses to a program without statements. */
  lemma EmptyInput()
    ensures Parse([]) == Parsed(Ok(Ast.Create(Ast.Program)), [])
  {
  }

  // No recovery: the first error of a routine is the error of every routine around it.

  /** A failing first statement is the result of the whole parse. */
  lemma FirstStatementFails(ts: seq<Token>)
    requires Lookahead(ts).kind != End && Statement(ts).result.Err?
    ensures Parse(ts).result == Statement(ts).result
  {
  }

  /** A failing assignment or print is the result of its statement. */
  lemma StatementFails(ts: seq<Token>)
    requires Lookahead(ts).kind == Laat ==> Assignment(ts).result.Err?
    requires Lookahead(ts).kind == Print ==> PrintStatement(ts).result.Err?
    ensures Lookahead(ts).kind == Laat ==> Statement(ts) == Assignment(ts)
    ensures Lookahead(ts).kind == Print ==> Statement(ts) == PrintStatement(ts)
  {
  }

  /** A failing right-hand side is the result of its assignment. */
  lemma AssignmentFails(name: string, after: seq<Token>)
    requires Expression(after).result.Err?
    ensures Assignment([Create(Laat), Tokens.CreateName(name)] + after) == Expression(after)
  {
    var ts := [Create(Laat), Tokens.CreateName(name)] + after;
    assert Advance(ts) == [Tokens.CreateName(name)] + after;
    assert Lookahead(Advance(ts)) == Tokens.CreateName(name);
    assert Advance(Advance(ts)) == after;
  }

  /** A failing operand after `+` or `-` is the result of the expression loop. */
  lemma ExprLoopFails(left: Ast.Node, op: Ast.Kind, after: seq<Token>)
    requires Ast.WellFormedExpr(left) && op in {Ast.Plus, Ast.Minus}
    requires Mul(after).result.Err?
    ensures ExprLoop(left, [OperatorToken(op)] + after) == Mul(after)
  {
    assert Advance([OperatorToken(op)] + after) == after;
  }

  /** A failing operand after `*` or `/` is the result of the term loop. */
  lemma MulLoopFails(left: Ast.Node, op: Ast.Kind, after: seq<Token>)
    requires Ast.WellFormedExpr(left) && op in {Ast.Star, Ast.Slash}
    requires Value(after).result.Err?
    ensures MulLoop(left, [OperatorToken(op)] + after) == Value(after)
  {
    assert Advance([OperatorToken(op)] + after) == after;
  }

  /** A keyword or other token where an operand is due is rejected without consuming it. */
  lemma NotAnOperand(ts: seq<Token>)
    requires Lookahead(ts).error.None?
    requires Lookahead(ts).kind !in {Number, Name, Het, LParen}
    ensures Value(ts) == Mul(ts) == Expression(ts)
      == Parsed(Err("Want number, name, het, or(, got " + Tokens.ToString(Lookahead(ts)) + "."), ts)
  {
    ValueRejects(ts);
    FailedValueEndsMul(ts);
    FailedMulEndsExpression(ts);
    OperandMessage(Tokens.ToString(Lookahead(ts)));
  }

  lemma OperandMessage(got: string)
    ensures "Want " + "number, name, het, or(" + ", got " + got + "." == "Want number, name, het, or(, got " + got + "."
  {
    assert "Want " + "number, name, het, or(" + ", got " == "Want number, name, het, or(, got ";
  }

  lemma FailedValueEndsMul(ts: seq<Token>)
    requires Value(ts).result.Err?
    ensures Mul(ts) == Value(ts)
  {
  }

  lemma FailedMulEndsExpression(ts: seq<Token>)
    requires Mul(ts).result.Err?
    ensures Expression(ts) == Mul(ts)
  {
  }

  lemma ValueRejects(ts: seq<Token>)
    requires Lookahead(ts).error.None?
    requires Lookahead(ts).kind !in {Number, Name, Het, LParen}
    ensures Value(ts) == Fail(ts, "number, name, het, or(")
  {
  }
}
