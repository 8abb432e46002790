/**
 * Parsing: the recursive-descent parser of parser.c as a class over a lexer
 * and a one-token lookahead. The ghost stream `Rest()` is the lookahead
 * followed by every token the lexer has still to deliver; each routine is
 * proved to return what the corresponding `Grammar` function returns on the
 * stream it started with, and to leave the stream `Grammar` says it leaves.
 */
module Parsing {
  import opened Wrappers
  import opened Tokens
  import opened Lexing
  import LexingProperties
  import Ast
  import Grammar
  import GrammarProperties

  class Parser {
    /** `p->input`, the cursor over the source text. */
    const lexer: Lexer
    /** `p->lookahead`, the one token of lookahead. */
    var lookahead: Token

    /** The lexer is consistent, and once `end` is the lookahead the lexer only yields `end`. */
    ghost predicate Valid()
      reads this, lexer
    {
      lexer.Valid()
      && (lookahead.kind == End ==>
            lookahead == Create(End) && Lex(lexer.input, lexer.index).token.kind == End)
    }

    /** The tokens still ahead of the parser, the lookahead first. */
    ghost function Rest(): (ts: seq<Token>)
      reads this, lexer
      requires Valid()
      ensures Grammar.Lookahead(ts) == lookahead
    {
      if lookahead.kind == End then [] else [lookahead] + TokensFrom(lexer.input, lexer.index)
    }

    /** `parser_create`: the lookahead is the first token of `input`. */
    constructor (input: string)
      ensures Valid() && fresh(lexer) && lexer.input == input && Rest() == TokensFrom(input, 0)
    {
      var l := new Lexer(input);
      var t := l.NextToken();
      LexingProperties.EndRepeats(input, 0);
      lexer := l;
      lookahead := t;
    }

    /** `parser_consume`: the lexer delivers the next lookahead. */
    method Consume()
      requires Valid()
      modifies this, lexer
      ensures Valid() && Rest() == Grammar.Advance(old(Rest()))
    {
      ghost var i := lexer.index;
      LexingProperties.EndRepeats(lexer.input, i);
      lookahead := lexer.NextToken();
      LexingProperties.EndRepeats(lexer.input, lexer.index);
    }

    /** `parser_expect`: consume the lookahead only when it is a non-error token of kind `k`. */
    method Expect(k: Kind) returns (ok: bool)
      requires Valid()
      modifies this, lexer
      ensures Valid() && ok == Grammar.Accepts(old(Rest()), k)
      ensures Rest() == if ok then Grammar.Advance(old(Rest())) else old(Rest())
    {
      if lookahead.error.Some? || lookahead.kind != k {
        return false;
      }
      Consume();
      return true;
    }

    /** `parser_error`, `parser_error_type` and `parser_error_lookahead`. */
    function Error(want: string): (m: string)
      reads this, lexer
      requires Valid()
      ensures m == Grammar.ErrorAt(Rest(), want)
    {
      if lookahead.error.Some? then lookahead.error.value
      else "Want " + want + ", got " + Tokens.ToString(lookahead) + "."
    }

    /** `parser_parse`. */
    method Parse() returns (r: Result<Ast.Node>)
      requires Valid()
      modifies this, lexer
      ensures Valid() && Grammar.Parsed(r, Rest()) == Grammar.Parse(old(Rest()))
    {
      r := Program();
      if r.Err? {
        return;
      }
      var ok := Expect(End);
      if !ok {
        // `parser_program` succeeds only with `end` as the lookahead, which `parser_expect` accepts.
        assert false;
      }
    }

    /** `parser_program`. */
    method Program() returns (r: Result<Ast.Node>)
      requires Valid()
      modifies this, lexer
      ensures Valid() && Grammar.Parsed(r, Rest()) == Grammar.Program(old(Rest()))
    {
      ghost var ts := Rest();
      var a := Ast.Create(Ast.Program);
      while lookahead.kind != End
        invariant Valid() && Ast.WellFormedProgram(a)
        invariant Grammar.ProgramLoop(a, Rest()) == Grammar.Program(ts)
        decreases |Rest()|
      {
        ghost var before := Rest();
        var s := Statement();
        ghost var after := Rest();
        if s.Err? {
          GrammarProperties.ProgramStops(a, before);
          return s;
        }
        GrammarProperties.ProgramStep(a, before, s.value, after);
        Ast.AddStatement(a, s.value);
        a := Ast.AddChild(a, s.value);
      }
      r := Ok(a);
    }

    /** `parser_statement`. */
    method Statement() returns (r: Result<Ast.Node>)
      requires Valid()
      modifies this, lexer
      ensures Valid() && Grammar.Parsed(r, Rest()) == Grammar.Statement(old(Rest()))
    {
      if lookahead.kind == Laat {
        r := Assignment();
      } else if lookahead.kind == Print {
        r := PrintStatement();
      } else {
        return Err(Error("assignment or print"));
      }
      if r.Err? {
        return;
      }
      var ok := Expect(Semicolon);
      if !ok {
        r := Err(Error(KindText(Semicolon)));
      }
    }

    /** `parser_assignment`. */
    method Assignment() returns (r: Result<Ast.Node>)
      requires Valid()
      modifies this, lexer
      ensures Valid() && Grammar.Parsed(r, Rest()) == Grammar.Assignment(old(Rest()))
    {
      var ok := Expect(Laat);
      if !ok {
        return Err(Error(KindText(Laat)));
      }
      if lookahead.error.Some? || lookahead.kind != Name {
        return Err(Error(KindText(Name)));
      }
      var assignee := lookahead.name;
      Consume();
      var e := Expression();
      if e.Err? {
        return e;
      }
      ok := Expect(Zijn);
      if !ok {
        return Err(Error(KindText(Zijn)));
      }
      var assign := Ast.Create(Ast.Assign);
      assign := Ast.AddChild(assign, Ast.CreateName(assignee));
      assign := Ast.AddChild(assign, e.value);
      r := Ok(assign);
    }

    /** `parser_print`. */
    method PrintStatement() returns (r: Result<Ast.Node>)
      requires Valid()
      modifies this, lexer
      ensures Valid() && Grammar.Parsed(r, Rest()) == Grammar.PrintStatement(old(Rest()))
    {
      var ok := Expect(Print);
      if !ok {
        return Err(Error(KindText(Print)));
      }
      var e := Expression();
      if e.Err? {
        return e;
      }
      ok := Expect(Uit);
      if !ok {
        return Err(Error(KindText(Uit)));
      }
      r := Ok(Ast.AddChild(Ast.Create(Ast.Print), e.value));
    }

    /** `parser_expression`. */
    method Expression() returns (r: Result<Ast.Node>)
      requires Valid()
      modifies this, lexer
      ensures Valid() && Grammar.Parsed(r, Rest()) == Grammar.Expression(old(Rest()))
      decreases |Rest()|, 2
    {
      ghost var ts := Rest();
      r := Mul();
      if r.Err? {
        return;
      }
      while true
        invariant Valid() && r.Ok? && Ast.WellFormedExpr(r.value) && |Rest()| < |ts|
        invariant Grammar.ExprLoop(r.value, Rest()) == Grammar.Expression(ts)
        decreases |Rest()|
      {
        if lookahead.error.Some? {
          r := Err(lookahead.error.value);
          return;
        }
        var op;
        if lookahead.kind == Plus {
          op := Ast.Plus;
        } else if lookahead.kind == Minus {
          op := Ast.Minus;
        } else {
          break;
        }
        Consume();
        var m := Mul();
        if m.Err? {
          return m;
        }
        var parent := Ast.Create(op);
        parent := Ast.AddChild(parent, r.value);
        parent := Ast.AddChild(parent, m.value);
        r := Ok(parent);
      }
    }

    /** `parser_mul`. */
    method Mul() returns (r: Result<Ast.Node>)
      requires Valid()
      modifies this, lexer
      ensures Valid() && Grammar.Parsed(r, Rest()) == Grammar.Mul(old(Rest()))
      decreases |Rest()|, 1
    {
      ghost var ts := Rest();
      r := Value();
      if r.Err? {
        return;
      }
      while true
        invariant Valid() && r.Ok? && Ast.WellFormedExpr(r.value) && |Rest()| < |ts|
        invariant Grammar.MulLoop(r.value, Rest()) == Grammar.Mul(ts)
        decreases |Rest()|
      {
        if lookahead.error.Some? {
          r := Err(lookahead.error.value);
          return;
        }
        var op;
        if lookahead.kind == Star {
          op := Ast.Star;
        } else if lookahead.kind == Slash {
          op := Ast.Slash;
        } else {
          break;
        }
        Consume();
        var v := Value();
        if v.Err? {
          return v;
        }
        var parent := Ast.Create(op);
        parent := Ast.AddChild(parent, r.value);
        parent := Ast.AddChild(parent, v.value);
        r := Ok(parent);
      }
    }

    /** `parser_value`. */
    method Value() returns (r: Result<Ast.Node>)
      requires Valid()
      modifies this, lexer
      ensures Valid() && Grammar.Parsed(r, Rest()) == Grammar.Value(old(Rest()))
      decreases |Rest()|, 0
    {
      if lookahead.error.Some? {
        return Err(lookahead.error.value);
      }
      match lookahead.kind {
        case Number =>
          r := Ok(Ast.CreateNumber(lookahead.number));
        case Name =>
          r := Ok(Ast.CreateName(lookahead.name));
        case Het =>
          r := Ok(Ast.Create(Ast.Het));
        case LParen =>
          Consume();
          r := Expression();
          if r.Err? {
            return;
          }
          var ok := Expect(RParen);
          if !ok {
            r := Err(Error(KindText(RParen)));
          }
          return;
        case _ =>
          return Err(Error("number, name, het, or("));
      }
      Consume();
    }
  }

  /** `parser_create` then `parser_parse` on a source text, as the test harness drives them. */
  method ParseText(input: string) returns (r: Result<Ast.Node>)
    ensures r == Grammar.Parse(TokensFrom(input, 0)).result
  {
    var p := new Parser(input);
    r := p.Parse();
  }
}
