/**
 * Interpreting: the interpreter of interpreter.c as an object whose fields
 * are the printed output, the variable list, `last_var` and the pending
 * error. Each routine is proved to do what `Semantics` says of the state
 * it started from.
 */
module Interpreting {
  import opened Wrappers
  import Ast
  import opened Semantics

  class Interpreter {
    /** The values printed so far, standing for the output stream. */
    var output: seq<real>
    /** `self->variables`, in the order the entries were appended. */
    var variables: seq<Variable>
    /** `self->last_var`: the entry `het` refers to, or -1. */
    var lastVar: int
    /** `self->error`: the pending runtime error. */
    var error: Option<string>
    /** The machine's division, which `Semantics` leaves to the caller. */
    const divide: (real, real) -> real

    /** The part of the object `Semantics` speaks about. */
    function Current(): State
      reads this`variables, this`lastVar
    {
      State(variables, lastVar)
    }

    ghost predicate Valid()
      reads this`variables, this`lastVar
    {
      Semantics.Valid(Current())
    }

    /** `interpreter_create`: no variables, no error, `last_var` is -1. */
    constructor (divide: (real, real) -> real)
      ensures Valid() && Current() == Initial() && error == None && output == []
      ensures this.divide == divide
    {
      output := [];
      variables := [];
      lastVar := -1;
      error := None;
      this.divide := divide;
    }

    /** `interpreter_interpret`: clear the error, then run the statements until one fails. */
    method Interpret(program: Ast.Node)
      requires Valid() && AllExecutable(program.children)
      modifies this
      ensures Valid()
      ensures var o := Semantics.Interpret(old(Current()), program, divide);
        Current() == o.state && error == o.error && output == old(output) + o.output
    {
      error := None;
      var ss := program.children;
      ghost var printed: seq<real> := [];
      var i := 0;
      while i < |ss|
        invariant 0 <= i <= |ss| && Valid() && error.None?
        invariant output == old(output) + printed
        invariant Run(old(Current()), ss, divide) == Then(printed, Run(Current(), ss[i..], divide))
      {
        RunAt(Current(), ss, i, divide);
        ghost var first := Exec(Current(), ss[i], divide);
        Statement(ss[i]);
        if error.Some? {
          return;
        }
        ThenThen(printed, first.output, Run(Current(), ss[i + 1..], divide));
        Concatenated(old(output), printed, first.output);
        printed := printed + first.output;
        i := i + 1;
      }
    }

    /** `interpreter_statement`: dispatch on the statement's kind. */
    method Statement(st: Ast.Node)
      requires Valid() && error.None? && Executable(st)
      modifies this
      ensures Valid()
      ensures var o := Exec(old(Current()), st, divide);
        Current() == o.state && error == o.error && output == old(output) + o.output
    {
      if st.kind == Ast.Print {
        Print(st);
      } else {
        Assign(st);
      }
    }

    /** `interpreter_print`: output the value unless evaluating it failed. */
    method Print(st: Ast.Node)
      requires Valid() && error.None?
      requires st.kind == Ast.Print && |st.children| >= 1 && Evaluable(st.children[0])
      modifies this`error, this`output
      ensures var o := Exec(Current(), st, divide);
        o.state == Current() && error == o.error && output == old(output) + o.output
    {
      var n := Expression(st.children[0]);
      if error.Some? {
        return;
      }
      output := output + [n];
    }

    /**
     * `interpreter_assign`: resolve the target, evaluate, give every entry
     * of that name the value, then append a new entry and point `last_var`
     * at it.
     */
    method Assign(st: Ast.Node)
      requires Valid() && error.None?
      requires st.kind == Ast.Assign && |st.children| >= 2
      requires st.children[0].kind in {Ast.Name, Ast.Het} && Evaluable(st.children[1])
      modifies this`variables, this`lastVar, this`error
      ensures Valid()
      ensures var o := Exec(old(Current()), st, divide);
        Current() == o.state && error == o.error
    {
      ghost var s := Current();
      var name: string;
      if st.children[0].kind == Ast.Name {
        name := st.children[0].name;
      } else {
        if lastVar < 0 {
          error := Some(HetInvalid);
          return;
        }
        name := variables[lastVar].name;
      }
      assert Target(s, st.children[0]) == Ok(name);
      var value := Expression(st.children[1]);
      if error.Some? {
        return;
      }
      UpdateMatching(name, value);
      ExecAssign(s, st, name, value, divide);
      lastVar := |variables|;
      variables := variables + [Variable(name, value)];
      assert Current() == AssignTo(s, name, value);
    }

    /**
     * The loop of `interpreter_assign`: every entry named `name` gets
     * `value`, and `last_var` moves to the last of them.
     */
    method UpdateMatching(name: string, value: real)
      modifies this`variables, this`lastVar
      ensures variables == Updated(old(variables), name, value)
      ensures lastVar == old(lastVar) || (0 <= lastVar < |variables| && variables[lastVar].name == name)
    {
      var i := 0;
      while i < |variables|
        invariant 0 <= i <= |variables| == |old(variables)|
        invariant forall j :: 0 <= j < |variables| ==>
          variables[j] == if j < i && old(variables)[j].name == name then Variable(name, value) else old(variables)[j]
        invariant lastVar == old(lastVar) || (0 <= lastVar < i && variables[lastVar].name == name)
      {
        if variables[i].name == name {
          variables := variables[i := variables[i].(value := value)];
          lastVar := i;
        }
        i := i + 1;
      }
    }

    /**
     * `interpreter_expression`: on an error the pending error is set and the
     * value is the C code's placeholder, -1 for a name and 0 otherwise.
     */
    method Expression(e: Ast.Node) returns (v: real)
      requires Valid() && error.None? && Evaluable(e)
      modifies this`error
      ensures var r := Eval(Current(), e, divide);
        && (r.Ok? ==> error.None? && v == r.value)
        && (r.Err? ==> error == Some(r.error) && v == if e.kind == Ast.Name then -1.0 else 0.0)
      decreases e
    {
      if e.kind == Ast.Name {
        v := Name(e.name);
        return;
      } else if e.kind == Ast.Number {
        return e.number as real;
      } else if e.kind == Ast.Het {
        if lastVar >= 0 {
          return variables[lastVar].value;
        }
        error := Some(HetInvalid);
        return 0.0;
      }
      var left := Expression(e.children[0]);
      if error.Some? {
        return 0.0;
      }
      var right := Expression(e.children[1]);
      if error.Some? {
        return 0.0;
      }
      match e.kind
      case Plus => v := left + right;
      case Minus => v := left - right;
      case Star => v := left * right;
      case Slash => v := divide(left, right);
    }

    /** `interpreter_name`: the value of the first entry with that name. */
    method Name(name: string) returns (v: real)
      requires error.None?
      modifies this`error
      ensures var r := Lookup(variables, name);
        && (r.Some? ==> error.None? && v == r.value)
        && (r.None? ==> error == Some(Unknown(name)) && v == -1.0)
    {
      var i := 0;
      while i < |variables|
        invariant 0 <= i <= |variables|
        invariant forall j :: 0 <= j < i ==> variables[j].name != name
      {
        if variables[i].name == name {
          LookupFirst(variables, name, i);
          return variables[i].value;
        }
        i := i + 1;
      }
      error := Some(Unknown(name));
      return -1.0;
    }
  }

  /** Output printed in two parts is their concatenation. */
  lemma Concatenated(before: seq<real>, first: seq<real>, second: seq<real>)
    ensures before + first + second == before + (first + second)
  {
  }
}
