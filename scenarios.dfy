/**
 * Scenarios: whole programs run by the interpreter, and the parser and the
 * interpreter together on token lists, for the behaviours the language is
 * documented with.
 */
module Scenarios {
  import opened Wrappers
  import opened Tokens
  import Ast
  import opened Grammar
  import GrammarProperties
  import opened Semantics

  function X(): Ast.Node { Ast.CreateName("x") }
  function It(): Ast.Node { Ast.Create(Ast.Het) }
  function Num(n: nat): Ast.Node { Ast.CreateNumber(n) }
  function Op(k: Ast.Kind, l: Ast.Node, r: Ast.Node): Ast.Node { Ast.Node(k, 0, "", [l, r]) }
  function Show(e: Ast.Node): Ast.Node { Ast.Node(Ast.Print, 0, "", [e]) }
  function Let(target: Ast.Node, e: Ast.Node): Ast.Node { Ast.Node(Ast.Assign, 0, "", [target, e]) }

  // `laat x 5 zijn; laat het het + 1 zijn; print het uit;` prints 6.

  function AfterFirst(): State { State([Variable("x", 5.0)], 0) }
  function AfterSecond(): State { State([Variable("x", 6.0), Variable("x", 6.0)], 1) }

  lemma LetFive(divide: (real, real) -> real)
    ensures Exec(Initial(), Let(X(), Num(5)), divide) == Outcome(AfterFirst(), [], None)
  {
    ExecAssign(Initial(), Let(X(), Num(5)), "x", 5.0, divide);
  }

  lemma LetItPlusOne(divide: (real, real) -> real)
    ensures Exec(AfterFirst(), Let(It(), Op(Ast.Plus, It(), Num(1))), divide) == Outcome(AfterSecond(), [], None)
  {
    var s := AfterFirst();
    assert Eval(s, Op(Ast.Plus, It(), Num(1)), divide) == Ok(6.0);
    ExecAssign(s, Let(It(), Op(Ast.Plus, It(), Num(1))), "x", 6.0, divide);
    assert Updated(s.variables, "x", 6.0) == [Variable("x", 6.0)];
  }

  lemma ShowIt(divide: (real, real) -> real)
    ensures Exec(AfterSecond(), Show(It()), divide) == Outcome(AfterSecond(), [6.0], None)
  {
  }

  /** `het` as a target re-assigns the variable last assigned, and as an operand reads it. */
  lemma ImplicitReference(divide: (real, real) -> real)
    ensures var o := Run(Initial(), [Let(X(), Num(5)), Let(It(), Op(Ast.Plus, It(), Num(1))), Show(It())], divide);
      o.error == None && o.output == [6.0]
  {
    var ss := [Let(X(), Num(5)), Let(It(), Op(Ast.Plus, It(), Num(1))), Show(It())];
    assert AllExecutable(ss);
    LetFive(divide);
    LetItPlusOne(divide);
    ShowIt(divide);
    RunAt(Initial(), ss, 0, divide);
    RunAt(AfterFirst(), ss, 1, divide);
    RunAt(AfterSecond(), ss, 2, divide);
    assert ss[3..] == [];
  }

  /** `print y uit;` with nothing assigned: an error, and nothing printed. */
  lemma UnknownVariable(divide: (real, real) -> real)
    ensures Run(Initial(), [Show(Ast.CreateName("y"))], divide)
      == Outcome(Initial(), [], Some("variable named \"y\" doesn't exist"))
  {
    var ss := [Show(Ast.CreateName("y"))];
    assert AllExecutable(ss);
    assert Lookup([], "y") == None;
    assert Eval(Initial(), Ast.CreateName("y"), divide) == Err(Unknown("y"));
    assert Unknown("y") == "variable named \"y\" doesn't exist";
    RunAt(Initial(), ss, 0, divide);
  }

  /** `print het uit;` with nothing assigned: `het` is invalid. */
  lemma HetFirst(divide: (real, real) -> real)
    ensures Run(Initial(), [Show(It())], divide) == Outcome(Initial(), [], Some("\"het\" is invalid here"))
  {
    var ss := [Show(It())];
    assert AllExecutable(ss);
    RunAt(Initial(), ss, 0, divide);
  }

  // The parser and the interpreter together.

  /** The tokens of `print 8 - 4 - 2 uit;`. */
  function CountdownTokens(): seq<Token> {
    [Create(Print), CreateNumber(8), Create(Minus), CreateNumber(4), Create(Minus), CreateNumber(2),
     Create(Uit), Create(Semicolon)]
  }

  function Countdown(): Ast.Node {
    Op(Ast.Minus, Op(Ast.Minus, Num(8), Num(4)), Num(2))
  }

  lemma CountdownUnparsed()
    ensures Ast.WellFormedExpr(Countdown())
    ensures GrammarProperties.UnparseExpr(Countdown())
      == [CreateNumber(8), Create(Minus), CreateNumber(4), Create(Minus), CreateNumber(2)]
  {
    var inner := Op(Ast.Minus, Num(8), Num(4));
    assert GrammarProperties.UnparseTerm(Num(2)) == [CreateNumber(2)];
    assert GrammarProperties.UnparseTerm(Num(4)) == [CreateNumber(4)];
    assert GrammarProperties.UnparseExpr(Num(8)) == [CreateNumber(8)];
    assert GrammarProperties.UnparseExpr(inner) == [CreateNumber(8), Create(Minus), CreateNumber(4)];
  }

  /** `print 8 - 4 - 2 uit;` parses with `-` grouping to the left. */
  lemma CountdownParsed()
    ensures Parse(CountdownTokens()) == Parsed(Ok(Ast.Node(Ast.Program, 0, "", [Show(Countdown())])), [])
  {
    var p := Ast.Node(Ast.Program, 0, "", [Show(Countdown())]);
    CountdownUnparsed();
    assert Ast.WellFormedStatement(Show(Countdown()));
    assert Ast.WellFormedProgram(p);
    GrammarProperties.UnparseOne(p);
    assert GrammarProperties.UnparseProgram(p) == CountdownTokens();
    GrammarProperties.ParseRoundTrip(p);
  }

  lemma CountdownValue(divide: (real, real) -> real)
    ensures Evaluable(Countdown()) && Eval(Initial(), Countdown(), divide) == Ok(2.0)
  {
    assert Eval(Initial(), Op(Ast.Minus, Num(8), Num(4)), divide) == Ok(4.0);
  }

  lemma CountdownRuns(divide: (real, real) -> real)
    ensures AllExecutable([Show(Countdown())])
    ensures Run(Initial(), [Show(Countdown())], divide) == Outcome(Initial(), [2.0], None)
  {
    var ss := [Show(Countdown())];
    CountdownValue(divide);
    assert AllExecutable(ss);
    RunAt(Initial(), ss, 0, divide);
    assert ss[1..] == [];
  }

  /** Left associativity observed: `print 8 - 4 - 2 uit;` prints 2, not 6. */
  lemma CountdownPrintsTwo(divide: (real, real) -> real)
    ensures var p := Parse(CountdownTokens()).result;
      p.Ok? && AllExecutable(p.value.children)
      && Interpret(Initial(), p.value, divide) == Outcome(Initial(), [2.0], None)
  {
    CountdownParsed();
    CountdownRuns(divide);
  }

  /** This revision's parser wants a name after `laat`: `het` is not accepted as a target. */
  lemma HetTargetRejected(rest: seq<Token>)
    ensures Parse([Create(Laat), Create(Het)] + rest).result == Err("Want name, got <het>.")
  {
    var ts := [Create(Laat), Create(Het)] + rest;
    assert Advance(ts) == [Create(Het)] + rest;
    assert Tokens.ToString(Create(Het)) == "<het>";
    assert Assignment(ts).result == Err("Want name, got <het>.");
    GrammarProperties.StatementFails(ts);
    GrammarProperties.FirstStatementFails(ts);
  }
}
