# A verified model of the `laat … zijn` toy language

The repository implements a small language with Dutch keywords. Its four
stages run one after the other:

- The lexer turns a NUL-terminated line into tokens.
- A recursive-descent parser with one token of lookahead builds an AST.
- A tree-walking interpreter runs the program over a list of variables.
- A growable array holds the AST's children and the interpreter's variables.

Statements are `laat <name> <expression> zijn;` and `print <expression> uit;`.
`het` stands for the variable assigned last.

The model follows the source file by file.

| module | file | form |
|---|---|---|
| `Tokens`, `Literals` | token.c | pure functions over a `Token` datatype |
| `Lexing` | lexer.c | the pure meaning of one call (`Lex`) and of the whole stream (`TokensFrom`), plus the class `Lexer`, whose methods `NextToken`, `Name` and `Number` run the C loops and are proved to agree with `Lex` |
| `LexingProperties` | lexer.c | what each kind of input yields, and the lexer as the inverse of a token printer (`Render`) |
| `Ast` | ast.c | the node as a value datatype, the constructors, `ast_add_child`, and the serialiser `ast_to_string` |
| `Grammar` | parser.c | each parser routine as a function over the tokens still ahead, returning the result and the tokens left |
| `Parsing` | parser.c | the class `Parser` (a `Lexer` and a lookahead token), whose methods are proved to compute exactly what the `Grammar` functions say |
| `GrammarProperties` | parser.c | an unparser and the round trip `Parse(UnparseProgram(p)) == p` for every well-formed program; error priority; no recovery |
| `Semantics` | interpreter.c | evaluation and execution as functions over the variable list and `last_var` |
| `Interpreting` | interpreter.c | the class `Interpreter`, whose methods are proved to do what `Semantics` says |
| `Arrays` | array.c | the class `GrowArray` over a Dafny `array`, with push-with-doubling |
| `Goldens`, `Scenarios` | test.c | the harness's ten example inputs, lexed and parsed, and short programs run end to end |

Some conventions of the model:

- Number literals are whole numbers (`nat`). `%.5f` of a whole number is its decimal digits followed by `.00000`.
- Interpreter values are `real`. Division is a parameter `divide` that stands for the machine's floating-point division.
- Printed output is a sequence of values.
- A token keeps both members of the C union, `number` and `name`, as the C struct does. A constructor that does not set one leaves it zero.

## Model

| member | source | states |
|---|---|---|
| Tokens.Create | token.c:9-14 | a payload-free token of the given kind, with no error |
| Tokens.CreateName | token.c:16-22 | kind `name`, carrying the given text, with no error |
| Tokens.CreateNumber | token.c:24-30 | kind `number`, carrying the given value, with no error |
| Tokens.CreateError | token.c:32-38 | every error token has kind `none` and carries its message |
| Tokens.KindText | token.c:61-101 | `token_type_to_string` is total over the enumeration, and every text is non-empty |
| Tokens.KindTextRoundTrip | token.c:61-101 | `KindOfText` reads every kind's display text back to that kind |
| Tokens.KindTextInjective | token.c:61-101 | distinct kinds have distinct display texts |
| Tokens.ToStringCases | token.c:47-59 | the rendering is enclosed in `<` and `>`, and the character after `<` is `"` exactly for a name and a digit exactly for a number |
| Tokens.ToStringInjective | token.c:47-59 | two tokens that `token_to_string` renders alike have the same kind and the same payload for that kind |
| Tokens.NameShown | token.c:51-52 | the rendering `<"text">` of a name identifies the name |
| Tokens.NumberShown | token.c:53-54 | the rendering `<n.00000>` of a number identifies the number |
| Literals.NatToString | ast.c:86-87 | the digits of `%.5f` before the point are non-empty, have no leading zero, and fold back to the number |
| Literals.FormatFixed5Injective | token.c:53-54 | different whole numbers print differently under `%.5f` |
| Lexing.RunEnd | lexer.c:23-24 | the maximal run of one character class: every character before the end is in the class, and the one at the end is not |
| Lexing.LexNumber | lexer.c:121-132 | one error-free number token; the whole maximal run of digits is consumed and the cursor stops on the first non-digit |
| Lexing.LexName | lexer.c:83-119 | the whole maximal run of letters is consumed; the result is an error exactly when the run is longer than 100, and a name token carries exactly the run |
| Lexing.Lex | lexer.c:21-70 | one call never passes the NUL; it advances unless it returns `end`; it returns `end` exactly when only whitespace is left, and then rests on the NUL |
| Lexing.TokensFrom | lexer.c:21-70 | the stream of tokens from a position, with no `end` token inside it |
| Lexing.Lexer.constructor | lexer.c:13-19 | the cursor starts at index 0 of the input |
| Lexing.Lexer.Peek | lexer.c:78-81 | the character under the cursor, or NUL past the last one |
| Lexing.Lexer.Consume | lexer.c:72-76 | the cursor moves by one unless it is on the NUL |
| Lexing.Lexer.NextToken | lexer.c:21-70 | the token returned and the new cursor are exactly `Lex` of the old cursor |
| Lexing.Lexer.Name | lexer.c:83-119 | the 100-character buffer loop returns the token and the cursor that `LexName` gives |
| Lexing.Lexer.Number | lexer.c:121-132 | the digit loop returns the token and the cursor that `LexNumber` gives |
| LexingProperties.EndRepeats | lexer.c:72-76 | once `end` is returned, every later call returns it again without moving the cursor |
| LexingProperties.SkipsWhitespace | lexer.c:23-24 | leading whitespace is skipped before the token is classified |
| LexingProperties.SpaceSkipped | lexer.c:23-24 | a space before the cursor changes nothing in the rest of the stream |
| LexingProperties.StreamStep | lexer.c:21-70 | the stream is one call's token followed by the stream after it |
| LexingProperties.PunctuatorStep | lexer.c:28-49 | each of `+ - * / ( ) ;` yields its kind and advances the cursor by exactly one |
| LexingProperties.NumberStep | lexer.c:121-132 | a maximal run of digits yields one number equal to the left fold `n * 10 + d`, with the cursor on the first non-digit |
| LexingProperties.NumberRoundTrip | lexer.c:121-132 | the lexer reads back the number written in decimal |
| LexingProperties.KeywordIsItsText | lexer.c:105-118 | exactly `laat het zijn print uit en` are keywords, each lexed from its own display text |
| LexingProperties.WordStep | lexer.c:83-119 | a run of 1 to 100 letters yields its keyword token, or else a name token whose text is exactly the run |
| LexingProperties.LongWordStep | lexer.c:88-99 | a run of more than 100 letters yields one error token naming its first ten letters, and the whole run is consumed |
| LexingProperties.InvalidCharacterStep | lexer.c:58-64 | any other character yields an error token naming it and consumes exactly that character |
| LexingProperties.StreamAtEnd | lexer.c:50-52 | nothing is left in the stream at the end of the text |
| LexingProperties.TokenStep | lexer.c:21-70 | a lexable token written out and followed by a space is lexed back as itself |
| LexingProperties.RenderRoundTrip | lexer.c:21-70 | lexing the rendering of any sequence of lexable tokens gives that sequence back |
| Ast.KindSymbol | ast.c:12-23 | the `ast_type_to_string` table gives every kind a non-empty symbol |
| Ast.Create | ast.c:25-37 | a node of the given kind with no payload and no children |
| Ast.CreateName | ast.c:39-52 | a name leaf carrying the given name, with no children |
| Ast.CreateNumber | ast.c:54-67 | a number leaf carrying the given value, with no children |
| Ast.AddChild | ast.c:96-99 | the child goes last; earlier children keep their order; kind and payload are unchanged |
| Ast.WithChildren | ast.c:96-99 | successive `ast_add_child` calls append the children in order |
| Ast.SingleCases | ast.c:82-94 | the single form is non-empty, and its first character is `"` exactly for a name and a digit exactly for a number |
| Ast.LeafToString | ast.c:101-105 | a node without children serialises to its single form only |
| Ast.ChildrenTextJoins | ast.c:107-119 | the accumulation loop joins the children's strings with ", " and leaves no trailing separator |
| Ast.NodeToString | ast.c:101-126 | a node with children serialises as `single (c1, …, ck)` |
| Ast.AddChildToString | ast.c:96-126 | adding a child puts its string last in the parenthesised list, after ", " when there were children before |
| Ast.OneChildToString | ast.c:101-126 | a node with one child serialises as `single (child)` |
| Ast.TwoChildrenToString | ast.c:101-126 | a node with two children serialises as `single (left, right)` |
| Ast.AddStatement | parser.c:122 | appending a statement to a program keeps it a program |
| Grammar.Lookahead | parser.c:30-36 | the lookahead is the first token ahead, or `end` when none is left |
| Grammar.Advance | parser.c:80-84 | consuming drops the lookahead; at `end` nothing moves |
| Grammar.ErrorAt | parser.c:57-78 | a lexer error token's own message, otherwise `Want <want>, got <token>.` |
| Grammar.Binary | parser.c:226-229 | the loops build a binary node as the operator over left, then right: two `ast_add_child` calls, as `Ast.WithChildren` of the two operands |
| Grammar.Value | parser.c:272-306 | a successful operand is a well-formed expression, and success consumes tokens |
| Grammar.MulLoop | parser.c:241-267 | the `*`/`/` loop yields a well-formed expression and never grows the stream |
| Grammar.Mul | parser.c:235-270 | a successful term is a well-formed expression, and success consumes tokens |
| Grammar.ExprLoop | parser.c:204-230 | the `+`/`-` loop yields a well-formed expression and never grows the stream |
| Grammar.Expression | parser.c:198-233 | a successful expression is well formed, and success consumes tokens |
| Grammar.Assignment | parser.c:150-178 | a successful assignment is an `=` node over a name leaf and an expression |
| Grammar.PrintStatement | parser.c:180-196 | a successful print is a `print` node over one expression |
| Grammar.Statement | parser.c:128-148 | a successful statement is a print or an assignment, and success consumes tokens |
| Grammar.ProgramLoop | parser.c:115-123 | the loop yields a program whose children are all statements, and it stops at `end` |
| Grammar.Program | parser.c:111-126 | a successful program has only statements as children and leaves the lookahead at `end` |
| Grammar.Parse | parser.c:97-109 | a successful parse is a well-formed program |
| GrammarProperties.LeafToken | parser.c:279-288 | every leaf comes from an error-free number, name or `het` token |
| GrammarProperties.ValueLeaf | parser.c:279-305 | a number, name or `het` token becomes its leaf and is consumed |
| GrammarProperties.ValueParen | parser.c:289-299 | a parenthesised expression yields the inner tree with no wrapper node and consumes the `)` |
| GrammarProperties.ValueUnclosed | parser.c:296-297 | a parenthesised expression without its `)` is rejected where the `)` is due |
| GrammarProperties.MulStart | parser.c:235-239 | a term starts with an operand, then runs the `*`/`/` loop |
| GrammarProperties.MulLoopStep | parser.c:247-266 | one `*` or `/` folds the operand into a left-leaning node |
| GrammarProperties.MulLoopStop | parser.c:250-253 | the `*`/`/` loop stops at any other error-free token |
| GrammarProperties.ExprStart | parser.c:198-202 | an expression starts with a term, then runs the `+`/`-` loop |
| GrammarProperties.ExprLoopStep | parser.c:210-229 | one `+` or `-` folds the term into a left-leaning node |
| GrammarProperties.ExprLoopStop | parser.c:213-216 | the `+`/`-` loop stops at any other error-free token |
| GrammarProperties.AtomRoundTrip | parser.c:272-306 | an operand's tokens are parsed back to the operand, and parsing stops right after them |
| GrammarProperties.TermRoundTrip | parser.c:235-270 | a term's tokens, with the left operand unbracketed, are parsed back by the `*`/`/` loop: left associativity |
| GrammarProperties.ExprLoopRoundTrip | parser.c:198-233 | an expression's tokens are parsed back by the `+`/`-` loop, with `*`/`/` binding tighter |
| GrammarProperties.ExprRoundTrip | parser.c:198-233 | an expression's tokens are parsed back to the expression, and parsing stops right after them |
| GrammarProperties.PrintStep | parser.c:180-196 | `print` e `uit` yields the print node over e |
| GrammarProperties.AssignStep | parser.c:150-178 | `laat` name e `zijn` yields the `=` node over the name leaf and e |
| GrammarProperties.AssignHead | parser.c:152-158 | `laat` is accepted and the name token is taken as the target |
| GrammarProperties.AssignNode | parser.c:172-174 | the assignment node has the name leaf first and the expression second |
| GrammarProperties.StatementStep | parser.c:128-148 | a print or an assignment followed by `;` is a statement |
| GrammarProperties.StatementRoundTrip | parser.c:128-148 | a statement's tokens are parsed back to the statement, and parsing stops right after its `;` |
| GrammarProperties.PrintRoundTrip | parser.c:180-196 | a print statement's tokens are parsed back to it |
| GrammarProperties.AssignmentParsed | parser.c:150-178 | the tokens of an assignment up to its `zijn` are parsed back to the assignment |
| GrammarProperties.AssignRoundTrip | parser.c:150-178 | an assignment's tokens are parsed back to it |
| GrammarProperties.ProgramStops | parser.c:116-120 | a failing statement ends the program loop with its error |
| GrammarProperties.ProgramStep | parser.c:115-123 | a successful statement is appended and the loop goes on |
| GrammarProperties.ProgramLoopRoundTrip | parser.c:111-126 | the statements' tokens are parsed back and appended in order |
| GrammarProperties.ParseRoundTrip | parser.c:97-109 | every well-formed program is parsed back from its tokens, with nothing left |
| GrammarProperties.LexerErrorFirst | parser.c:57-72 | a lexer error in the lookahead is reported verbatim by every routine and by the whole parse |
| GrammarProperties.EmptyInput | parser.c:111-126 | empty input parses to a program without children |
| GrammarProperties.FirstStatementFails | parser.c:116-120 | a failing first statement is the result of the whole parse: no recovery |
| GrammarProperties.StatementFails | parser.c:139-140 | a failing assignment or print is the result of its statement |
| GrammarProperties.AssignmentFails | parser.c:160-164 | a failing right-hand side is the result of its assignment |
| GrammarProperties.ExprLoopFails | parser.c:220-224 | a failing operand after `+` or `-` is the result of the expression |
| GrammarProperties.MulLoopFails | parser.c:257-261 | a failing operand after `*` or `/` is the result of the term |
| GrammarProperties.NotAnOperand | parser.c:300-301 | a keyword or other token where an operand is due is rejected with `Want number, name, het, or(, got <token>.` and is not consumed |
| GrammarProperties.ValueRejects | parser.c:300-301 | `parser_value` rejects a token that starts no operand |
| GrammarProperties.FailedValueEndsMul | parser.c:237-239 | a failing first operand is the result of the term |
| GrammarProperties.FailedMulEndsExpression | parser.c:200-202 | a failing first term is the result of the expression |
| Parsing.Parser.constructor | parser.c:30-36 | the tokens ahead of a new parser are the whole stream of the input |
| Parsing.Parser.Consume | parser.c:80-84 | the tokens ahead lose their first one |
| Parsing.Parser.Expect | parser.c:86-95 | consumes exactly when the lookahead is error-free and of the wanted kind; otherwise nothing changes |
| Parsing.Parser.Error | parser.c:57-78 | the message of `parser_error` on the current lookahead |
| Parsing.Parser.Parse | parser.c:97-109 | result and tokens left are those of `Grammar.Parse` |
| Parsing.Parser.Program | parser.c:111-126 | result and tokens left are those of `Grammar.Program` |
| Parsing.Parser.Statement | parser.c:128-148 | result and tokens left are those of `Grammar.Statement` |
| Parsing.Parser.Assignment | parser.c:150-178 | result and tokens left are those of `Grammar.Assignment` |
| Parsing.Parser.PrintStatement | parser.c:180-196 | result and tokens left are those of `Grammar.PrintStatement` |
| Parsing.Parser.Expression | parser.c:198-233 | result and tokens left are those of `Grammar.Expression` |
| Parsing.Parser.Mul | parser.c:235-270 | result and tokens left are those of `Grammar.Mul` |
| Parsing.Parser.Value | parser.c:272-306 | result and tokens left are those of `Grammar.Value` |
| Parsing.ParseText | test.c:23-26 | creating a parser on a text and parsing gives `Grammar.Parse` of the text's tokens |
| Semantics.Initial | interpreter.c:19-27 | no variables, and `last_var` below zero |
| Semantics.Find | interpreter.c:129-138 | the index of the first entry with the name, or -1 when there is none |
| Semantics.Lookup | interpreter.c:129-138 | lookup fails exactly when no entry has the name |
| Semantics.LookupFirst | interpreter.c:131-134 | lookup answers with the first entry of that name |
| Semantics.LookupCoherent | interpreter.c:89-94 | when entries of a name agree, lookup agrees with each of them |
| Semantics.WellFormedEvaluable | interpreter.c:100-127 | every expression the parser builds can be evaluated without reaching `assert(false)` |
| Semantics.Eval | interpreter.c:100-127 | evaluation fails only with `"het" is invalid here` or `variable named "<n>" doesn't exist` |
| Semantics.EvalSucceedsIffDefined | interpreter.c:100-138 | evaluation succeeds exactly when every name is bound and `het` has something to refer to |
| Semantics.RightThenApply | interpreter.c:115-126 | after a successful left operand, a failing right operand is the error of the whole operation; otherwise the operator is applied to the left value and then the right one |
| Semantics.LeftFirst | interpreter.c:113-118 | a failing left operand is the error of the whole operation, whatever the right operand is |
| Semantics.WellFormedExecutable | interpreter.c:49-57 | every statement the parser builds can be executed without reaching `assert(false)` |
| Semantics.Updated | interpreter.c:89-94 | every entry with the name gets the value; the others are untouched |
| Semantics.AssignTo | interpreter.c:89-97 | the old entries become `Updated` of them (every entry with the name gets the value), exactly one entry is appended, `last_var` is the old length, and every old entry keeps its name and place |
| Semantics.AssignThenLookup | interpreter.c:89-97 | after an assignment the name looks up to its new value |
| Semantics.AssignKeepsOthers | interpreter.c:89-97 | an assignment leaves every other name's lookup as it was |
| Semantics.AssignThenHet | interpreter.c:96-97 | after an assignment `het` evaluates to the value just assigned |
| Semantics.AssignCoherent | interpreter.c:89-97 | an assignment keeps the entries of each name in agreement |
| Semantics.Target | interpreter.c:72-82 | the target name, or the name at `last_var` for `het`; it fails exactly for `het` with no variables |
| Semantics.Exec | interpreter.c:49-98 | a failing statement changes nothing and prints nothing; a print prints one value and changes no variable; entries are only appended to |
| Semantics.ExecAssign | interpreter.c:68-98 | an assignment with a known target and value performs `AssignTo` and prints nothing |
| Semantics.ExecAssignLookup | interpreter.c:68-98 | after a successful assignment statement its target looks up to the assigned value |
| Semantics.Run | interpreter.c:38-47 | without an error, one value is printed per print statement, and entries are only appended to |
| Semantics.Interpret | interpreter.c:38-47 | interpreting keeps the state invariant `last_var == |variables| - 1` |
| Semantics.RunCoherent | interpreter.c:38-47 | running keeps the entries of each name in agreement |
| Semantics.RunStopsAtError | interpreter.c:43-46 | statements after a failing one are never run |
| Semantics.RunAt | interpreter.c:42-46 | statement i runs, then the ones after it unless it failed |
| Semantics.RunUnfold | interpreter.c:42-46 | the first statement runs, then the rest unless it failed |
| Interpreting.Interpreter.constructor | interpreter.c:19-27 | no variables, no error, `last_var` -1, nothing printed |
| Interpreting.Interpreter.Interpret | interpreter.c:38-47 | clears the error, then state, error and output are those of `Semantics.Interpret` |
| Interpreting.Interpreter.Statement | interpreter.c:49-57 | state, error and output are those of `Semantics.Exec` |
| Interpreting.Interpreter.Print | interpreter.c:59-66 | the value is output only when evaluation raised no error |
| Interpreting.Interpreter.Assign | interpreter.c:68-98 | state and error are those of `Semantics.Exec` on the assignment |
| Interpreting.Interpreter.UpdateMatching | interpreter.c:89-94 | every entry with the name gets the value, and `last_var` moves only to such an entry |
| Interpreting.Interpreter.Expression | interpreter.c:100-127 | the value or the error of `Semantics.Eval`, with the C code's placeholder value on an error |
| Interpreting.Interpreter.Name | interpreter.c:129-138 | the first matching entry's value, or the `doesn't exist` error and -1 |
| Arrays.GrowArray.constructor | array.c:4-25 | no elements and eight slots |
| Arrays.GrowArray.Push | array.c:33-45 | the element goes to slot `nelts`, after doubling to `2 * nelts` when full; a failed reallocation changes nothing; earlier elements are kept and `nelts <= nalloc` holds |
| Goldens.ErrsKeywordOperand | test.c:50 | `laat x 2 + laat zijn;` is rejected with `Want number, name, het, or(, got <laat>.` |
| Goldens.ErrsBadTarget | test.c:51 | `laat @ x zijn;` is rejected with the lexer's `Invalid character: '@'` |
| Goldens.ErrsBadOperand | test.c:52 | `laat pi @ zijn;` is rejected with the lexer's `Invalid character: '@'` |
| Goldens.ErrsMissingSemicolon | test.c:53 | `print 2 + 2 uit` is rejected for want of `;` |
| Goldens.ErrsDanglingStar | test.c:54 | `laat tau pi * pi * zijn;` is rejected at `zijn`, where an operand is due |
| Goldens.GivesEmpty | test.c:56 | the empty text parses to `program` |
| Goldens.GivesPrintPi | test.c:57 | `print pi uit;` parses to `program (print ("pi"))` |
| Goldens.GivesTwoPrints | test.c:58-59 | `print pi uit; print tau uit;` parses to `program (print ("pi"), print ("tau"))` |
| Goldens.GivesPrintSum | test.c:60-61 | `print 2 + 2 uit;` parses to `program (print (+ (2.00000, 2.00000)))` |
| Goldens.GivesAssignSquare | test.c:62-63 | `laat tau pi * pi zijn;` parses to `program (= ("tau", * ("pi", "pi")))` |
| Scenarios.ImplicitReference | interpreter.c:74-81 | `het` as a target re-assigns the variable assigned last, and as an operand reads it |
| Scenarios.UnknownVariable | interpreter.c:136-137 | an unbound name is an error, and nothing is printed |
| Scenarios.HetFirst | interpreter.c:105-110 | `het` with nothing assigned is an error |
| Scenarios.CountdownParsed | parser.c:204-230 | `print 8 - 4 - 2 uit;` parses with `-` grouping to the left |
| Scenarios.CountdownPrintsTwo | parser.c:198-233 | parsing and running `print 8 - 4 - 2 uit;` prints 2 |
| Scenarios.HetTargetRejected | parser.c:155-156 | the parser wants a name after `laat`, so `het` is not accepted as a target |

## Left out

- Character encoding: a `char` of the model stands for one byte of the C input, and only ASCII input is modelled. lexer.c passes each `char` to `isspace` and `isalpha` (lines 23, 56, 88); a byte of 128 or more is negative there, which is undefined behaviour in C. A multi-byte UTF-8 character is several bytes in C but one `char` in the model, so `Invalid character` is reported once for it rather than once per byte.
- IEEE double arithmetic: division by zero, infinities, NaN and the rounding of long digit runs. Values are `real`, and division is the `divide` parameter.
- Float formatting: `%f` of `interpreter_print` is not rendered, and printed output is a sequence of values. `%.5f` is modelled only for whole numbers, which are the only numbers the lexer produces.
- Memory management: `malloc` and `realloc` failure in `ast_create*` and `array_create`, `strdup` and `asprintf`, and every `*_destroy` function. The leaks of `expr.ast` when `uit` or `)` is missing (parser.c:189-190, 296-297) are not modelled.
- Arrays.GrowArray.Push: the byte size of a slot and `size_t` overflow of `a->size * a->nelts * 2` are not modelled.
- Interpreting.Interpreter.Assign: the push onto the variable list always succeeds. A failed `array_push_variable` (a NULL slot written through) is not modelled.
- Ast: nodes are values, not heap objects. `ast_add_child` pushes onto the node's own array in place. Each tree has exactly one owner, so returning the extended node is observably the same. Aliasing of shared sub-trees is not modelled, because the parser never shares them.
- Interpreting.Interpreter: the variable list is a `seq` that the methods reassign, not a `struct array` of `struct variable`.
- GrammarProperties.LeafToken: states only that a leaf's token is an error-free number, name or `het`. `ValueLeaf` states that the token is parsed back to the leaf.
- Parsing.Parser.Parse: the failure branch of `parser_expect(p, token_end)` (parser.c:103-105) is unreachable, because `parser_program` only succeeds with `end` as the lookahead. It is an `assert false` in the model.
- The `assert(false)` branches (interpreter.c:56, 81, 125; token.c:99) are preconditions: `Evaluable`, `Executable`, and the kind enumeration.
- The typed-array macros (`array_*_declare`) are not part of this model. Child and variable lists are sequences.
- main.c (the read-eval-print loop over stdin and stdout) is not part of this model.
- Headers are read for the data types only. interpreter.h declares `bool error` and no `last_var`. The model follows interpreter.c, where `error` is a message and `last_var` exists.
- The parser and the interpreter disagree about `het` as an assignment target. `parser_assignment` accepts only a name token after `laat` (`Scenarios.HetTargetRejected`). `interpreter_assign` still handles a `het` target. The model keeps both, so `Scenarios.ImplicitReference` runs a tree that this parser cannot produce.
