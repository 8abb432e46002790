/**
 * Semantics: what the interpreter of interpreter.c computes, as functions
 * over its state. The state is the chronological variable list and the
 * index `last_var` of the entry `het` refers to. A statement either fails
 * with a message and leaves the state alone, or yields a new state and
 * the values it printed. Division is whatever operation the caller
 * supplies, standing for the machine's floating-point division.
 */
module Semantics {
  import opened Wrappers
  import Ast

  /** `struct variable`: a name and its current value. */
  datatype Variable = Variable(name: string, value: real)

  /** The interpreter's variable list and `last_var` (-1 for none). */
  datatype State = State(variables: seq<Variable>, lastVar: int)

  /** A run's effect: the new state, the values printed, and the pending error if any. */
  datatype Outcome = Outcome(state: State, output: seq<real>, error: Option<string>)

  /** The message for `het` with nothing assigned yet. */
  const HetInvalid: string := "\"het\" is invalid here"

  /** The message for a name with no entry. */
  function Unknown(name: string): string {
    "variable named \"" + name + "\" doesn't exist"
  }

  /** `interpreter_create`: no variables and no `het`. */
  function Initial(): (s: State)
    ensures Valid(s) && s.variables == [] && s.lastVar < 0
  {
    State([], -1)
  }

  /**
   * The state's invariant: every assignment appends an entry and points
   * `last_var` at it, so `last_var` is always the index of the last entry.
   */
  predicate Valid(s: State) {
    s.lastVar == |s.variables| - 1
  }

  /** Entries with the same name hold the same value. */
  predicate Coherent(vars: seq<Variable>) {
    forall i, j :: 0 <= i < |vars| && 0 <= j < |vars| && vars[i].name == vars[j].name ==>
      vars[i].value == vars[j].value
  }

  /** `later` keeps the entries of `earlier`, in place and under the same names. */
  predicate Extends(earlier: seq<Variable>, later: seq<Variable>) {
    |earlier| <= |later| && forall i :: 0 <= i < |earlier| ==> later[i].name == earlier[i].name
  }

  // Looking names up (`interpreter_name`).

  /** The index of the first entry named `name`, or -1 when there is none. */
  function Find(vars: seq<Variable>, name: string): (k: int)
    ensures -1 <= k < |vars|
    ensures k >= 0 ==> vars[k].name == name
    ensures forall j :: 0 <= j < |vars| && (k < 0 || j < k) ==> vars[j].name != name
    decreases |vars|
  {
    if vars == [] then -1
    else if vars[0].name == name then 0
    else
      var k := Find(vars[1..], name);
      if k < 0 then -1 else k + 1
  }

  /** The value of the first entry named `name`, if any. */
  function Lookup(vars: seq<Variable>, name: string): (r: Option<real>)
    ensures r.None? <==> forall j :: 0 <= j < |vars| ==> vars[j].name != name
  {
    var k := Find(vars, name);
    if k < 0 then None else Some(vars[k].value)
  }

  /** Lookup answers with the first entry of that name, whatever the later entries hold. */
  lemma LookupFirst(vars: seq<Variable>, name: string, i: nat)
    requires i < |vars| && vars[i].name == name
    requires forall j :: 0 <= j < i ==> vars[j].name != name
    ensures Lookup(vars, name) == Some(vars[i].value)
  {
  }

  /** In a coherent list every entry of a name holds the value lookup gives. */
  lemma LookupCoherent(vars: seq<Variable>, name: string, i: nat)
    requires Coherent(vars) && i < |vars| && vars[i].name == name
    ensures Lookup(vars, name) == Some(vars[i].value)
  {
    var k := Find(vars, name);
    assert vars[k].name == vars[i].name;
  }

  // Evaluating expressions (`interpreter_expression`).

  /**
   * The trees `interpreter_expression` handles without reaching its
   * `assert(false)`: leaves, and operators with a left and a right operand.
   */
  predicate Evaluable(e: Ast.Node)
    decreases e
  {
    || e.kind in {Ast.Number, Ast.Name, Ast.Het}
    || (Ast.IsOperator(e.kind) && |e.children| >= 2
        && Evaluable(e.children[0]) && Evaluable(e.children[1]))
  }

  /** The parser's expression trees are evaluable. */
  lemma {:induction false} WellFormedEvaluable(e: Ast.Node)
    requires Ast.WellFormedExpr(e)
    ensures Evaluable(e)
    decreases e
  {
    if Ast.IsOperator(e.kind) {
      WellFormedEvaluable(e.children[0]);
      WellFormedEvaluable(e.children[1]);
    }
  }

  /** An operator applied to two values; `divide` is the floating-point division. */
  function Apply(op: Ast.Kind, left: real, right: real, divide: (real, real) -> real): (v: real)
    requires Ast.IsOperator(op)
  {
    match op
    case Plus => left + right
    case Minus => left - right
    case Star => left * right
    case Slash => divide(left, right)
  }

  /**
   * `interpreter_expression`: a name is looked up, a number is its value,
   * `het` is the value at `last_var`; an operator evaluates its left
   * operand, then its right one, stopping at the first error.
   */
  function Eval(s: State, e: Ast.Node, divide: (real, real) -> real): (r: Result<real>)
    requires Valid(s) && Evaluable(e)
    ensures r.Err? ==> r.error == HetInvalid || exists n :: r.error == Unknown(n)
    decreases e
  {
    if e.kind == Ast.Name then
      var v := Lookup(s.variables, e.name);
      if v.Some? then Ok(v.value) else Err(Unknown(e.name))
    else if e.kind == Ast.Number then Ok(e.number as real)
    else if e.kind == Ast.Het then
      if s.lastVar >= 0 then Ok(s.variables[s.lastVar].value) else Err(HetInvalid)
    else
      var left := Eval(s, e.children[0], divide);
      if left.Err? then left
      else
        var right := Eval(s, e.children[1], divide);
        if right.Err? then right
        else Ok(Apply(e.kind, left.value, right.value, divide))
  }

  /** Every name the expression mentions has an entry, and `het` is only used once something was assigned. */
  predicate Defined(s: State, e: Ast.Node)
    requires Evaluable(e)
    decreases e
  {
    if e.kind == Ast.Name then exists j :: 0 <= j < |s.variables| && s.variables[j].name == e.name
    else if e.kind == Ast.Number then true
    else if e.kind == Ast.Het then |s.variables| > 0
    else Defined(s, e.children[0]) && Defined(s, e.children[1])
  }

  /** Evaluation fails exactly when a name is unbound or `het` has nothing to refer to. */
  lemma {:induction false} EvalSucceedsIffDefined(s: State, e: Ast.Node, divide: (real, real) -> real)
    requires Valid(s) && Evaluable(e)
    ensures Eval(s, e, divide).Ok? <==> Defined(s, e)
    decreases e
  {
    if e.kind == Ast.Name {
      if Lookup(s.variables, e.name).None? {
        assert !Defined(s, e);
      } else {
        var k := Find(s.variables, e.name);
        assert s.variables[k].name == e.name;
      }
    } else if e.kind !in {Ast.Number, Ast.Het} {
      EvalSucceedsIffDefined(s, e.children[0], divide);
      EvalSucceedsIffDefined(s, e.children[1], divide);
    }
  }

  /** An operator whose left operand fails fails with the same error, whatever the right one is. */
  lemma LeftFirst(s: State, e: Ast.Node, divide: (real, real) -> real)
    requires Valid(s) && Evaluable(e) && Ast.IsOperator(e.kind)
    requires Eval(s, e.children[0], divide).Err?
    ensures Eval(s, e, divide) == Eval(s, e.children[0], divide)
  {
  }

  /**
   * Once the left operand has a value, the right one is evaluated: its error
   * is the result, or else the operator is applied to the two values in
   * their order in the tree.
   */
  lemma RightThenApply(s: State, e: Ast.Node, divide: (real, real) -> real)
    requires Valid(s) && Evaluable(e) && Ast.IsOperator(e.kind)
    requires Eval(s, e.children[0], divide).Ok?
    ensures var l, r := Eval(s, e.children[0], divide), Eval(s, e.children[1], divide);
      && (r.Err? ==> Eval(s, e, divide) == r)
      && (r.Ok? ==> Eval(s, e, divide) == Ok(Apply(e.kind, l.value, r.value, divide)))
      && (r.Ok? && e.kind == Ast.Minus ==> Eval(s, e, divide).value == l.value - r.value)
      && (r.Ok? && e.kind == Ast.Slash ==> Eval(s, e, divide).value == divide(l.value, r.value))
  {
  }

  // Executing statements (`interpreter_statement`, `_print`, `_assign`).

  /** The statements `interpreter_statement` handles without reaching an `assert(false)`. */
  predicate Executable(st: Ast.Node) {
    || (st.kind == Ast.Print && |st.children| >= 1 && Evaluable(st.children[0]))
    || (st.kind == Ast.Assign && |st.children| >= 2
        && st.children[0].kind in {Ast.Name, Ast.Het} && Evaluable(st.children[1]))
  }

  predicate AllExecutable(ss: seq<Ast.Node>) {
    forall k :: 0 <= k < |ss| ==> Executable(ss[k])
  }

  /** The parser's statements and programs are executable. */
  lemma WellFormedExecutable(p: Ast.Node)
    requires Ast.WellFormedProgram(p)
    ensures AllExecutable(p.children)
  {
    forall k | 0 <= k < |p.children|
      ensures Executable(p.children[k])
    {
      var st := p.children[k];
      assert Ast.WellFormedStatement(st);
      if st.kind == Ast.Print {
        WellFormedEvaluable(st.children[0]);
      } else {
        WellFormedEvaluable(st.children[1]);
      }
    }
  }

  /** Every entry named `name` now holds `v`; the others are untouched. */
  function Updated(vars: seq<Variable>, name: string, v: real): (r: seq<Variable>)
    ensures |r| == |vars|
    ensures forall j :: 0 <= j < |vars| ==>
      r[j] == if vars[j].name == name then Variable(name, v) else vars[j]
    decreases |vars|
  {
    if vars == [] then []
    else [if vars[0].name == name then Variable(name, v) else vars[0]] + Updated(vars[1..], name, v)
  }

  /** A successful assignment: matching entries updated, a new entry appended, `het` pointing at it. */
  function AssignTo(s: State, name: string, v: real): (r: State)
    requires Valid(s)
    ensures Valid(r) && r.lastVar == |s.variables|
    ensures |r.variables| == |s.variables| + 1 && r.variables[r.lastVar] == Variable(name, v)
    ensures Extends(s.variables, r.variables)
    ensures r.variables[..|s.variables|] == Updated(s.variables, name, v)
  {
    State(Updated(s.variables, name, v) + [Variable(name, v)], |s.variables|)
  }

  /** After an assignment the name looks up to its new value. */
  lemma AssignThenLookup(s: State, name: string, v: real)
    requires Valid(s)
    ensures Lookup(AssignTo(s, name, v).variables, name) == Some(v)
  {
    var after := AssignTo(s, name, v).variables;
    var k := Find(after, name);
    if k < |s.variables| {
      assert s.variables[k].name == name;
    }
  }

  /** An assignment leaves the lookup of every other name as it was. */
  lemma AssignKeepsOthers(s: State, name: string, v: real, other: string)
    requires Valid(s) && other != name
    ensures Lookup(AssignTo(s, name, v).variables, other) == Lookup(s.variables, other)
  {
    var before := s.variables;
    var after := AssignTo(s, name, v).variables;
    var k := Find(before, other);
    if k >= 0 {
      LookupFirst(after, other, k);
    }
  }

  /** After an assignment `het` stands for the value just assigned. */
  lemma AssignThenHet(s: State, name: string, v: real, divide: (real, real) -> real)
    requires Valid(s)
    ensures Eval(AssignTo(s, name, v), Ast.Create(Ast.Het), divide) == Ok(v)
  {
  }

  /** An assignment keeps entries of equal names equal. */
  lemma AssignCoherent(s: State, name: string, v: real)
    requires Valid(s) && Coherent(s.variables)
    ensures Coherent(AssignTo(s, name, v).variables)
  {
    var before := s.variables;
    var after := AssignTo(s, name, v).variables;
    forall i, j | 0 <= i < |after| && 0 <= j < |after| && after[i].name == after[j].name
      ensures after[i].value == after[j].value
    {
      if i < |before| && j < |before| && after[i].name != name {
        assert after[i] == before[i] && after[j] == before[j];
      }
    }
  }

  /**
   * The name an assignment writes: the target name, or for `het` the name
   * of the entry at `last_var`.
   */
  function Target(s: State, target: Ast.Node): (r: Result<string>)
    requires Valid(s) && target.kind in {Ast.Name, Ast.Het}
    ensures r.Err? <==> target.kind == Ast.Het && s.variables == []
    ensures r.Ok? && target.kind == Ast.Het ==> r.value == s.variables[|s.variables| - 1].name
  {
    if target.kind == Ast.Name then Ok(target.name)
    else if s.lastVar < 0 then Err(HetInvalid)
    else Ok(s.variables[s.lastVar].name)
  }

  /** A failed statement: the state stays, nothing is printed. */
  function Failed(s: State, msg: string): Outcome {
    Outcome(s, [], Some(msg))
  }

  /**
   * `interpreter_statement`: a print outputs its value; an assignment
   * resolves its target before evaluating, and changes nothing on error.
   */
  function Exec(s: State, st: Ast.Node, divide: (real, real) -> real): (o: Outcome)
    requires Valid(s) && Executable(st)
    ensures Valid(o.state) && Extends(s.variables, o.state.variables)
    ensures o.error.Some? ==> o.state == s && o.output == []
    ensures st.kind == Ast.Print ==> o.state == s
    ensures |o.output| == if st.kind == Ast.Print && o.error.None? then 1 else 0
  {
    if st.kind == Ast.Print then
      var v := Eval(s, st.children[0], divide);
      if v.Err? then Failed(s, v.error) else Outcome(s, [v.value], None)
    else
      var name := Target(s, st.children[0]);
      if name.Err? then Failed(s, name.error)
      else
        var v := Eval(s, st.children[1], divide);
        if v.Err? then Failed(s, v.error)
        else Outcome(AssignTo(s, name.value, v.value), [], None)
  }

  /** An assignment whose target and value are known. */
  lemma ExecAssign(s: State, st: Ast.Node, name: string, v: real, divide: (real, real) -> real)
    requires Valid(s) && Executable(st) && st.kind == Ast.Assign
    requires Target(s, st.children[0]) == Ok(name) && Eval(s, st.children[1], divide) == Ok(v)
    ensures Exec(s, st, divide) == Outcome(AssignTo(s, name, v), [], None)
  {
  }

  /** A successful assignment makes its target look up to the assigned value. */
  lemma ExecAssignLookup(s: State, st: Ast.Node, divide: (real, real) -> real)
    requires Valid(s) && Executable(st) && st.kind == Ast.Assign
    requires Exec(s, st, divide).error.None?
    ensures var name := Target(s, st.children[0]).value;
      Lookup(Exec(s, st, divide).state.variables, name) == Some(Eval(s, st.children[1], divide).value)
  {
    AssignThenLookup(s, Target(s, st.children[0]).value, Eval(s, st.children[1], divide).value);
  }

  /** How many of the statements are prints. */
  function Prints(ss: seq<Ast.Node>): nat
    decreases |ss|
  {
    if ss == [] then 0 else (if ss[0].kind == Ast.Print then 1 else 0) + Prints(ss[1..])
  }

  /** An outcome with `out` printed before it. */
  function Then(out: seq<real>, o: Outcome): Outcome {
    Outcome(o.state, out + o.output, o.error)
  }

  /**
   * `interpreter_interpret`'s loop: the statements in order, stopping at the
   * first that sets an error; the output of the earlier ones stays printed.
   */
  function Run(s: State, ss: seq<Ast.Node>, divide: (real, real) -> real): (o: Outcome)
    requires Valid(s) && AllExecutable(ss)
    ensures Valid(o.state) && Extends(s.variables, o.state.variables)
    ensures o.error.None? ==> |o.output| == Prints(ss)
    decreases |ss|
  {
    if ss == [] then Outcome(s, [], None)
    else
      var first := Exec(s, ss[0], divide);
      if first.error.Some? then first
      else
        Then(first.output, Run(first.state, ss[1..], divide))
  }

  /** `interpreter_interpret` on a program: its statements run from the given state. */
  function Interpret(s: State, program: Ast.Node, divide: (real, real) -> real): (o: Outcome)
    requires Valid(s) && AllExecutable(program.children)
    ensures Valid(o.state)
  {
    Run(s, program.children, divide)
  }

  lemma SuffixExecutable(ss: seq<Ast.Node>, i: nat)
    requires AllExecutable(ss) && i <= |ss|
    ensures AllExecutable(ss[i..])
  {
    forall k | 0 <= k < |ss[i..]| ensures Executable(ss[i..][k]) {
      assert ss[i..][k] == ss[i + k];
    }
  }

  lemma TailExecutable(ss: seq<Ast.Node>)
    requires AllExecutable(ss) && ss != []
    ensures AllExecutable(ss[1..])
  {
    forall k | 0 <= k < |ss[1..]| ensures Executable(ss[1..][k]) {
      assert ss[1..][k] == ss[k + 1];
    }
  }

  lemma AppendExecutable(ss: seq<Ast.Node>, more: seq<Ast.Node>)
    requires AllExecutable(ss) && AllExecutable(more)
    ensures AllExecutable(ss + more)
  {
    var all := ss + more;
    forall k | 0 <= k < |all| ensures Executable(all[k]) {
      if k < |ss| { assert all[k] == ss[k]; } else { assert all[k] == more[k - |ss|]; }
    }
  }

  /** Running keeps entries of equal names equal, so lookup agrees with every entry of a name. */
  lemma {:induction false} RunCoherent(s: State, ss: seq<Ast.Node>, divide: (real, real) -> real)
    requires Valid(s) && AllExecutable(ss) && Coherent(s.variables)
    ensures Coherent(Run(s, ss, divide).state.variables)
    decreases |ss|
  {
    if ss != [] {
      var first := Exec(s, ss[0], divide);
      if first.error.None? {
        if ss[0].kind == Ast.Assign {
          var name := Target(s, ss[0].children[0]).value;
          AssignCoherent(s, name, Eval(s, ss[0].children[1], divide).value);
        }
        TailExecutable(ss);
        RunCoherent(first.state, ss[1..], divide);
      }
    }
  }

  /** Statements after one that fails are never run: appending more changes nothing. */
  lemma {:induction false} RunStopsAtError(s: State, ss: seq<Ast.Node>, more: seq<Ast.Node>, divide: (real, real) -> real)
    requires Valid(s) && AllExecutable(ss) && AllExecutable(more)
    requires Run(s, ss, divide).error.Some?
    ensures AllExecutable(ss + more) && Run(s, ss + more, divide) == Run(s, ss, divide)
    decreases |ss|
  {
    var all := ss + more;
    AppendExecutable(ss, more);
    assert all[0] == ss[0];
    var first := Exec(s, ss[0], divide);
    if first.error.None? {
      assert all[1..] == ss[1..] + more;
      TailExecutable(ss);
      RunStopsAtError(first.state, ss[1..], more, divide);
    }
  }

  /** The loop at statement `i`: that statement, then the ones after it unless it failed. */
  lemma RunAt(s: State, ss: seq<Ast.Node>, i: nat, divide: (real, real) -> real)
    requires Valid(s) && AllExecutable(ss) && i < |ss|
    ensures Executable(ss[i]) && AllExecutable(ss[i..]) && AllExecutable(ss[i + 1..])
    ensures var first := Exec(s, ss[i], divide);
      Run(s, ss[i..], divide) ==
        if first.error.Some? then first
        else Then(first.output, Run(first.state, ss[i + 1..], divide))
  {
    SuffixExecutable(ss, i);
    SuffixExecutable(ss, i + 1);
    assert ss[i..][0] == ss[i] && ss[i..][1..] == ss[i + 1..];
    RunUnfold(s, ss[i..], divide);
  }

  /** Output printed before output printed before an outcome. */
  lemma ThenThen(p: seq<real>, q: seq<real>, o: Outcome)
    ensures Then(p, Then(q, o)) == Then(p + q, o)
  {
    assert p + (q + o.output) == (p + q) + o.output;
  }

  /** One step of the loop: the first statement, then the rest unless it failed. */
  lemma RunUnfold(s: State, ss: seq<Ast.Node>, divide: (real, real) -> real)
    requires Valid(s) && AllExecutable(ss) && ss != []
    ensures AllExecutable(ss[1..])
    ensures var first := Exec(s, ss[0], divide);
      Run(s, ss, divide) ==
        if first.error.Some? then first
        else Then(first.output, Run(first.state, ss[1..], divide))
  {
    TailExecutable(ss);
  }
}
