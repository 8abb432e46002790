/**
 * Ast: the syntax tree the parser builds and the interpreter walks (ast.c),
 * with its golden serialisation `ast_to_string`.
 */
module Ast {
  import opened Literals

  /** `enum ast_type`. */
  datatype Kind =
    | Plus | Minus | Star | Slash
    | Number | Name | Het
    | Print | Assign
    | Program

  /**
   * `struct ast`. The union of `number_value` and `name_value` becomes two
   * fields that the constructors not setting them leave zero; `children` is
   * the node's growable array of owned sub-trees.
   */
  datatype Node = Node(kind: Kind, number: nat, name: string, children: seq<Node>)

  /** The `ast_type_to_string` table. */
  function KindSymbol(k: Kind): (s: string)
    ensures |s| >= 1
  {
    match k
    case Plus => "+"
    case Minus => "-"
    case Star => "*"
    case Slash => "/"
    case Number => "number"
    case Name => "name"
    case Het => "het"
    case Print => "print"
    case Assign => "="
    case Program => "program"
  }

  /** `ast_create`: a payload-free node without children. */
  function Create(k: Kind): (n: Node)
    ensures n.kind == k && n.children == []
    ensures n.number == 0 && n.name == ""
  {
    Node(k, 0, "", [])
  }

  /** `ast_create_name`: a name leaf. */
  function CreateName(name: string): (n: Node)
    ensures n.kind == Name && n.name == name && n.children == []
  {
    Node(Name, 0, name, [])
  }

  /** `ast_create_number`: a number leaf. */
  function CreateNumber(v: nat): (n: Node)
    ensures n.kind == Number && n.number == v && n.children == []
  {
    Node(Number, v, "", [])
  }

  /**
   * `ast_add_child`: the child goes last, the earlier children keep their
   * order and the node's own kind and payload do not change.
   */
  function AddChild(a: Node, child: Node): (r: Node)
    ensures r.kind == a.kind && r.number == a.number && r.name == a.name
    ensures |r.children| == |a.children| + 1
    ensures r.children[..|a.children|] == a.children && r.children[|a.children|] == child
  {
    a.(children := a.children + [child])
  }

  /** A node with the given children, built by successive `AddChild` calls. */
  function WithChildren(a: Node, cs: seq<Node>): (r: Node)
    ensures r.kind == a.kind && r.number == a.number && r.name == a.name
    ensures r.children == a.children + cs
    decreases |cs|
  {
    if cs == [] then a else WithChildren(AddChild(a, cs[0]), cs[1..])
  }

  /** `ast_single_to_string`: a number with five decimals, a quoted name, or the table symbol. */
  function Single(a: Node): string {
    if a.kind == Number then FormatFixed5(a.number)
    else if a.kind == Name then "\"" + a.name + "\""
    else KindSymbol(a.kind)
  }

  /** The first character of the single form tells the three cases apart. */
  lemma SingleCases(a: Node)
    ensures |Single(a)| >= 1
    ensures Single(a)[0] == '"' <==> a.kind == Name
    ensures IsDigit(Single(a)[0]) <==> a.kind == Number
  {
  }

  /**
   * `ast_to_string`. As in the C code, the children's text is accumulated
   * one child at a time, with ", " after every child but the last
   * (`ChildrenText`); only a node with children gets the parenthesised part.
   */
  function ToString(a: Node): string
    decreases a, 1
  {
    if |a.children| == 0 then Single(a)
    else Single(a) + " (" + ChildrenText(a, 0, "") + ")"
  }

  /** The loop of `ast_to_string` from child `i` on, with `acc` accumulated so far. */
  function ChildrenText(a: Node, i: nat, acc: string): (r: string)
    requires i <= |a.children|
    decreases a, 0, |a.children| - i
  {
    if i == |a.children| then acc
    else
      var text := ToString(a.children[i]);
      ChildrenText(a, i + 1, acc + text + (if i == |a.children| - 1 then "" else ", "))
  }

  /** The strings of a list, with `sep` between neighbours and nothing after the last. */
  function Join(sep: string, ss: seq<string>): string
    decreases |ss|
  {
    if ss == [] then ""
    else if |ss| == 1 then ss[0]
    else ss[0] + sep + Join(sep, ss[1..])
  }

  /** The serialisation of each of `cs`, in order. */
  function ChildStrings(cs: seq<Node>): (ss: seq<string>)
    ensures |ss| == |cs|
    ensures forall k :: 0 <= k < |cs| ==> ss[k] == ToString(cs[k])
    decreases |cs|
  {
    if cs == [] then [] else [ToString(cs[0])] + ChildStrings(cs[1..])
  }

  /** A node without children serialises to its single form only. */
  lemma LeafToString(a: Node)
    requires a.children == []
    ensures ToString(a) == Single(a)
  {
  }

  /** The loop of `ast_to_string` joins the children's strings with ", ". */
  lemma {:induction false} ChildrenTextJoins(a: Node, i: nat, acc: string)
    requires i < |a.children|
    ensures ChildrenText(a, i, acc) == acc + Join(", ", ChildStrings(a.children[i..]))
    decreases |a.children| - i
  {
    var cs := a.children;
    var text := ToString(cs[i]);
    assert cs[i..][0] == cs[i];
    assert cs[i..][1..] == cs[i + 1..];
    if i == |cs| - 1 {
      assert ChildrenText(a, i + 1, acc + text + "") == acc + text + "";
    } else {
      var acc' := acc + text + ", ";
      ChildrenTextJoins(a, i + 1, acc');
      var rest := Join(", ", ChildStrings(cs[i + 1..]));
      assert Join(", ", ChildStrings(cs[i..])) == text + ", " + rest;
      assert acc' + rest == acc + (text + ", " + rest);
    }
  }

  /**
   * A node with k >= 1 children serialises as its single form, a space, and
   * the children's strings joined by ", " in parentheses.
   */
  lemma NodeToString(a: Node)
    requires a.children != []
    ensures ToString(a) == Single(a) + " (" + Join(", ", ChildStrings(a.children)) + ")"
  {
    ChildrenTextJoins(a, 0, "");
    assert a.children[0..] == a.children;
  }

  /** Joining one more string puts it last, after a separator when there was one before. */
  lemma {:induction false} JoinSnoc(sep: string, ss: seq<string>, x: string)
    ensures Join(sep, ss + [x]) == if ss == [] then x else Join(sep, ss) + sep + x
    decreases |ss|
  {
    if |ss| >= 2 {
      assert (ss + [x])[1..] == ss[1..] + [x];
      JoinSnoc(sep, ss[1..], x);
    } else if |ss| == 1 {
      assert (ss + [x])[1..] == [x];
    }
  }

  lemma {:induction false} ChildStringsSnoc(cs: seq<Node>, c: Node)
    ensures ChildStrings(cs + [c]) == ChildStrings(cs) + [ToString(c)]
  {
  }

  /**
   * Adding a child extends the parenthesised list: the new child's string
   * comes last, after ", " when there were children before.
   */
  lemma AddChildToString(a: Node, child: Node)
    ensures a.children == [] ==>
      ToString(AddChild(a, child)) == Single(a) + " (" + ToString(child) + ")"
    ensures a.children != [] ==>
      ToString(AddChild(a, child)) ==
        Single(a) + " (" + Join(", ", ChildStrings(a.children)) + ", " + ToString(child) + ")"
  {
    var r := AddChild(a, child);
    NodeToString(r);
    assert Single(r) == Single(a);
    ChildStringsSnoc(a.children, child);
    if a.children == [] {
      JoinSnoc(", ", [], ToString(child));
    } else {
      JoinedOneMore(Single(a), ChildStrings(a.children), ToString(child));
    }
  }

  /** Joining one more string into a parenthesised list puts it before the closing parenthesis. */
  lemma JoinedOneMore(head: string, ss: seq<string>, x: string)
    requires ss != []
    ensures head + " (" + Join(", ", ss + [x]) + ")" == head + " (" + Join(", ", ss) + ", " + x + ")"
  {
    JoinSnoc(", ", ss, x);
    Regroup(head + " (", Join(", ", ss) + ", ", x, ")");
  }

  lemma Regroup(p: string, q: string, x: string, z: string)
    ensures p + (q + x) + z == p + q + x + z
  {
  }

  // Shapes the parser produces (parser.c), used by the grammar and the evaluator.

  /** A binary operator kind. */
  predicate IsOperator(k: Kind) {
    k in {Plus, Minus, Star, Slash}
  }

  /** An expression tree: a leaf operand, or an operator over two expressions. */
  predicate WellFormedExpr(e: Node)
    decreases e
  {
    if IsOperator(e.kind) then
      e == Node(e.kind, 0, "", e.children) && |e.children| == 2
      && WellFormedExpr(e.children[0]) && WellFormedExpr(e.children[1])
    else
      e == CreateNumber(e.number) || e == CreateName(e.name) || e == Create(Het)
  }

  /** A statement: `print` over one expression, or `=` over a name and an expression. */
  predicate WellFormedStatement(s: Node) {
    || (s == Node(Print, 0, "", s.children) && |s.children| == 1
        && WellFormedExpr(s.children[0]))
    || (s == Node(Assign, 0, "", s.children) && |s.children| == 2
        && s.children[0] == CreateName(s.children[0].name) && WellFormedExpr(s.children[1]))
  }

  /** A program: the root node whose children are all statements. */
  predicate WellFormedProgram(p: Node) {
    p == Node(Program, 0, "", p.children)
    && forall k :: 0 <= k < |p.children| ==> WellFormedStatement(p.children[k])
  }

  /** Appending a statement to a program keeps it a program. */
  lemma AddStatement(p: Node, s: Node)
    requires WellFormedProgram(p) && WellFormedStatement(s)
    ensures WellFormedProgram(AddChild(p, s))
  {
    var cs := AddChild(p, s).children;
    assert forall k :: 0 <= k < |cs| ==> cs[k] == if k < |p.children| then p.children[k] else s;
  }

  /** A node with one child serialises as `single (child)`. */
  lemma OneChildToString(a: Node, c: Node)
    requires a.children == [c]
    ensures ToString(a) == Single(a) + " (" + ToString(c) + ")"
  {
    NodeToString(a);
    assert ChildStrings(a.children) == [ToString(c)];
  }

  /** A node with two children serialises as `single (left, right)`. */
  lemma TwoChildrenToString(a: Node, l: Node, r: Node)
    requires a.children == [l, r]
    ensures ToString(a) == Single(a) + " (" + ToString(l) + ", " + ToString(r) + ")"
  {
    NodeToString(a);
    var ss := ChildStrings(a.children);
    assert ss == [ToString(l), ToString(r)];
    assert ss[1..] == [ToString(r)];
  }
}
