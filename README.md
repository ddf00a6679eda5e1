# my_lispy in Dafny

A model of the core of `my_lispy`, a small Scheme-like interpreter written in
Python, with proofs about it. The model follows the code path by path:

- **Shell helpers** (`shell.dfy`, module `Shell`): the bracket checker that
  decides whether Enter submits the input, and the indentation arithmetic of
  the space key.
- **Lexing** (`lexer.dfy`, module `Lexer`): `StrGen` cuts the source into
  chunks. `TokenGen` turns the chunks into tokens carrying a location and a
  character offset. `resume.dfy` (module `Resume`) proves that tokenizing the
  source from a token's offset gives the remaining tokens, shifted by that
  offset.
- **Reading** (`reader.dfy`, module `Reader`): `prase_atom` classifies a
  token. `GenExp` reads one top-level form, including the `'x` sugar and the
  three reader errors. `find_left` returns the unread rest of the source.
  How the reader nests lists and quotes does not depend on how atoms are
  classified, so the reader and its round trip are stated for any atom
  classifier; `ReadForm` is the instance with `prase_atom`.
- **Syntax and analysis** (`syntax.dfy`, `analyzer.dfy`): the read datum
  (`Syntax.Datum`) is turned by `analyze` into an expression (`Syntax.Exp`).
  The special forms are `if`, `begin`, `cond`, `lambda`, `define`, `set!` and
  `quote`. Their usage errors become `LispSyntaxError` at the offending datum.
- **Values and errors** (`values.dfy`): runtime values, Python truthiness,
  Python `==`, printing, and the error kinds. A `LispError` is modelled as a
  kind plus its frame list, outermost call first and the original site last.
- **Environments** (`environment.dfy`): the chained scopes. Every frame lives
  in one arena and points to its parent by index. This arena gives
  `ChainMap` lookup, `define` into the head frame, `Environment.change`, and
  the call frame of a `Procedure`.
- **Operators** (`operators.dfy`): the standard environment's operators:
  - the arity and type check of `Operator.check`, including the type streams,
    which advance across calls;
  - the four operate mixins (sequential fold, comparison against the first
    argument, whole-list, single argument).
- **Evaluation** (`evaluator.dfy`): `eval`'s work queue and each form's
  `evaluate`, as mutually recursive functions.
  - They thread the environment arena and the operators' stream positions
    through each step.
  - Every function guarantees that frames are only added and names are only
    added (`Grows`).
  - `wellformed.dfy` proves that every value refers only to frames that
    exist. It also proves that a procedure's frame links to its defining
    frame.
  - `budget.dfy` proves that a finished evaluation does not depend on the
    fuel budget that stands in for Python's recursion limit.
- **Session** (`session.dfy`): `interpret`, the entry point that reads and
  evaluates up to `eval_time` forms. The `Interpreter` class holds the
  session-wide environment in a field. Its methods run `eval`'s work queue as
  a loop and call procedures by looping over their body. They are proved
  equal to the specification functions.

The model follows the code as written, which departs from a usual Scheme in
these ways:

- One-argument operators call the function once with exactly one argument.
  They do not map it over several arguments.
- `list?`, `number?`, `procedure?` and `symbol?` are comparison operators.
  With one argument they return true whatever the argument; with more, Python
  raises because the predicate is called with two arguments.
- `not` always returns true.
- A procedure call does not check the argument count. `zip` binds the shorter
  of the parameters and the arguments.
- A procedure body is evaluated in full by a nested `eval`, not
  trampolined. Only `if`, `begin` and `cond` hand a tail expression back to
  the work queue.
- There are no `and`, `or` or `map` primitives.

## Model

| member | source | states |
|---|---|---|
| Shell.CheckParenthesesBalance | lisp_shell.py:55-64 | the stack-based checker returns true exactly when no prefix closes more brackets than it opened and the counts are equal |
| Shell.NeverNegativeIffPrefixes | lisp_shell.py:55-64 | "never negative" is the same as "every prefix has non-negative depth" |
| Shell.DepthConcat | lisp_shell.py:55-64 | the depth of a concatenation is the sum of the depths |
| Shell.NegativePrefixIsFinal | lisp_shell.py:59-62 | once a prefix closes too many brackets, no continuation of the text is balanced |
| Shell.UnmatchedCloseIsFinal | lisp_shell.py:59-62 | a `)` after a balanced-depth prefix makes the whole text unbalanced whatever follows |
| Shell.NeverNegativeSnoc | lisp_shell.py:57-63 | one more character keeps the text never negative iff the new depth is non-negative |
| Shell.BalancedConcat | lisp_shell.py:55-64 | balanced texts stay balanced when concatenated, and the empty text is balanced |
| Shell.Parens | lisp_shell.py:57-63 | the extracted text holds only `(` and `)` |
| Shell.OnlyBracketsMatter | lisp_shell.py:57-63 | deleting every non-bracket character changes neither the depth nor the balance verdict |
| Shell.LeadingSpace | lisp_shell.py:109 | the leading-whitespace count is at most the line length, covers only whitespace and stops at the first non-whitespace |
| Shell.GetSpaceByCursor | lisp_shell.py:105-113 | a returned indentation never exceeds the line length |
| Shell.GetSpaceByCursorMeaning | lisp_shell.py:105-113 | an indentation is returned iff everything before the cursor is whitespace; it is 0 at the start of the line and otherwise the line's leading whitespace, which reaches the cursor |
| Shell.ExtraSpacesAligns | lisp_shell.py:120 | the space key inserts between 1 and SPACENUM spaces and leaves the indentation a multiple of SPACENUM |
| Shell.Spaces | lisp_shell.py:123 | the inserted text is exactly n spaces |
| Shell.SpaceKeyIndents | lisp_shell.py:116-126 | inside the indentation, the new line's indentation is the next multiple of SPACENUM and the text after it is unchanged; at column 0 SPACENUM spaces are inserted; elsewhere one space is inserted at the cursor |
| Shell.LeadingSpaceOfIndented | lisp_shell.py:109 | whitespace prepended to a line adds exactly its length to the leading whitespace |
| Lexer.StrGen | interpreter.py:47-52 | the chunks concatenate to the source; each holds 1 to max_in characters, and all but the last hold exactly max_in |
| Lexer.TokenGen | interpreter.py:55-89 | the tokens emitted chunk by chunk equal the token stream of the concatenated text, so they do not depend on where the chunks were cut |
| Lexer.LexChunk | interpreter.py:64-87 | the inner loop over one chunk carries the tokenizer state over and collects exactly the tokens that the per-character step emits |
| Lexer.LexPrefixSnoc | interpreter.py:63-83 | tokenizing one more character is one step of the per-character loop |
| Lexer.LexPrefixGood | interpreter.py:59-83 | after every prefix, emitted tokens are complete and ordered, the pending run is the text after the last delimiter, and tokens plus pending run spell the prefix without blanks |
| Lexer.LexCharGood | interpreter.py:64-83 | each character keeps the tokenizer's invariant |
| Lexer.TokenizeFacts | interpreter.py:55-89 | every token's text sits in the source at its offset; offsets strictly increase and tokens do not overlap; each token is one `(`, `)`, `'` or a maximal run of other characters; the tokens joined give the source without spaces and newlines |
| Reader.ParseAtom | interpreter.py:92-105 | an atom never reads as a list |
| Reader.ParseAtomIsSymbol | interpreter.py:92-105 | a token is a symbol iff it is no integer, float or fraction literal and not `#t`/`#f`; integer literals read as their value, other float literals as floats; the reader crashes exactly on a fraction literal with zero denominator |
| Reader.IntTextRoundTrip | interpreter.py:93-94 | the decimal text of any integer reads back as that integer |
| Reader.NatTextDigits | interpreter.py:93-94 | the decimal text of a natural number is a non-empty digit string whose value is that number |
| Reader.Find | interpreter.py:97-100 | the position found is the first occurrence of the character, or the length when it is absent |
| Reader.ReadFormWith | interpreter.py:107-172 | a successfully read form consumes at least one token and stays within the stream |
| Reader.ReadListWith | interpreter.py:128-170 | a successfully read list consumes at least one token and stays within the stream |
| Reader.GenExpWith | interpreter.py:107-172 | the imperative reader, with its nested-form recursion, returns exactly the form `ReadFormWith` describes, for any atom classifier |
| Reader.GenExp | interpreter.py:107-172 | with `prase_atom` classifying the atoms, the imperative reader returns exactly the form `ReadForm` describes |
| Reader.ReadFormTokens | interpreter.py:107-172 | the tokens of a printable datum, found at any position, read back as that datum and consume exactly those tokens, whatever the atom classifier |
| Reader.ReadListTokens | interpreter.py:128-145 | the tokens of a list's items followed by `)` close the list with those items, in order |
| Reader.ReadRoundTrip | interpreter.py:107-172 | reading the tokens of any printable datum gives the datum back, whatever follows |
| Reader.AtomForm | interpreter.py:161-164 | a top-level atom token is read as its classification, or crashes the reader when the classifier rejects it |
| Reader.AtomItem | interpreter.py:161-167 | an atom token inside a list appends its classification and reading continues after it, or crashes the reader |
| Reader.QuotedItem | interpreter.py:147-156 | `'x` inside a list reads x and replaces the list built so far by `(quote x)`; a failure to read x is the list's failure |
| Reader.NumbersArePrintable | interpreter.py:92-105 | the text of every integer and of both booleans reads back as the same datum, so they are printable |
| Reader.ReadItem | interpreter.py:161-167 | a complete item inside a list is appended and reading continues after it |
| Reader.ReadListUnclosed | interpreter.py:119-123 | a list whose `)` never comes fails as an unmatched left parenthesis |
| Reader.UnclosedList | interpreter.py:119-123 | `(` followed by complete items and nothing else is an unmatched left parenthesis |
| Reader.LeadingAtom | interpreter.py:161-170 | an atom at the top level is a form of one token |
| Reader.ReadErrors | interpreter.py:119-159 | an exhausted stream is end of source; a leading `)` is an unmatched right parenthesis; a final `'` is an unmatched quote; a leading `(` never reports end of source |
| Reader.ReadListNeverEnds | interpreter.py:119-126 | inside an open list, running out of tokens is never a clean end of source |
| Reader.ReadFormNeverEndsAfter | interpreter.py:119-126 | when a token is left, reading never reports a clean end of source |
| Reader.QuoteDiscardsItems | interpreter.py:147-156 | a `'` inside a list replaces the items gathered so far |
| Reader.TopLevelQuote | interpreter.py:147-159 | `'x` reads as `(quote x)` and ends where x ends; if x fails, the quote fails the same way |
| Reader.Drop | interpreter.py:42 | Python's `s[k:]`: from offset k within the text it is the suffix from k, past the end it is empty, and a negative k keeps the last -k characters (all of them when -k exceeds the length) |
| Reader.FindLeft | interpreter.py:39-44 | with no token left the rest is empty; otherwise it is the source from the next token's offset |
| Reader.FindLeftRetokenizes | interpreter.py:39-44 | the rest returned after any token position tokenizes to exactly the unread token texts, each at its old offset minus the offset of the first unread token |
| Resume.TokenizeSplit | interpreter.py:55-89 | when the cut falls next to a delimiter, tokenizing two texts joined gives the tokens of the first followed by those of the second shifted by the first's length |
| Resume.TokenizeFrom | interpreter.py:55-89 | tokenizing the source from the offset of token `pos` gives the tokens from `pos` on, with the same texts and offsets lowered by that offset |
| Analyzer.Params | analyze_eval.py:196-201 | a parameter list is accepted with one name per datum and never crashes |
| Analyzer.AnalyzeAllItems | analyze_eval.py:302-305 | a list analyses iff each item does, keeping the order and the length; otherwise it fails like its first failing item |
| Analyzer.AnalyzeAllOk | analyze_eval.py:302-305 | items that all analyse give an analysed list of the same length |
| Analyzer.AnalyzeAllLength | analyze_eval.py:302-305 | analysis keeps the number of items |
| Analyzer.KeywordForm | analyze_eval.py:298-301 | a list headed by `define` or `lambda` goes to that form's analysis |
| Analyzer.AnalyzeAtom | analyze_eval.py:306-307 | an atom analyses to itself |
| Analyzer.AnalyzeQuote | analyze_eval.py:284-287 | `(quote x)` analyses to a quotation of the unanalysed x |
| Analyzer.AnalyzeApplication | analyze_eval.py:302-305 | a list not headed by a keyword is an application of its analysed items, and succeeds iff every item does |
| Analyzer.SymList | analyze_eval.py:197-199 | the symbols built from names keep the names and their order |
| Analyzer.LambdaForm | analyze_eval.py:192-205 | `(lambda (ps...) body...)` with a non-empty analysable body is a lambda with those parameters and the analysed body |
| Analyzer.DefineFunction | analyze_eval.py:228-241 | `(define (f ps...) body...)` is the definition of f as that lambda |
| Analyzer.DefineProcedureShape | analyze_eval.py:228-241 | any define whose second item is a list of symbols defines the head name as a lambda over the rest |
| Analyzer.ParamsOfSymbols | analyze_eval.py:196-200 | a list of symbols is accepted as exactly those names |
| Analyzer.ShapeErrors | analyze_eval.py:103-287 | `if`, `begin`, `cond`, `lambda`, `set!` and `quote` with the wrong number or kind of parts, and a `define` of a symbol without exactly one value, fail with a syntax error at the whole form |
| Analyzer.ParamsFailIff | analyze_eval.py:196-201 | a parameter list is refused iff one of its items is not a symbol |
| Analyzer.DefineShapeErrors | analyze_eval.py:220-241 | a `define` with no name part, or whose name part is neither a symbol nor a non-empty list, crashes the analyser (Python raises an `IndexError` or a `TypeError`, which is no Lisp error); a function form whose name or any parameter is not a symbol, or whose body is empty, fails with a syntax error at the whole form |
| Analyzer.ItemErrors | analyze_eval.py:158-201 | a malformed `cond` clause, in a `cond` of any length including a single clause, or a non-symbol parameter of a `lambda` with a body, fails at that item, the first such one |
| Analyzer.ClausesFirstBad | analyze_eval.py:162-168 | the first malformed cond clause is the one reported |
| Analyzer.ParamsFirstBad | analyze_eval.py:197-201 | the first non-symbol parameter is the one reported |
| Values.PyEqReflexive | analyze_eval.py:441 | every value equals itself under Python `==` |
| Values.PyEqSymmetric | analyze_eval.py:441 | Python `==` on the modelled values is symmetric |
| Values.DatumValues | analyze_eval.py:289-290 | quoting a list of data gives one value per datum |
| Environment.Chain | analyze_eval.py:315-321 | the scope chain starts at the current frame and only names existing frames |
| Environment.LookupInnermost | analyze_eval.py:466-469 | lookup fails iff no frame on the scope chain has the name, and otherwise returns the innermost binding |
| Environment.DefineOnlyHead | analyze_eval.py:243-245 | `define` writes only the current frame, binds the name there, keeps every parent link and changes no other name's lookup |
| Environment.ChangeIffBound | analyze_eval.py:315-321 | `change` succeeds iff the name is bound somewhere on the chain |
| Environment.ChangeWrites | analyze_eval.py:315-334 | `change` writes the current frame's own table when it has the name; otherwise, when the name is bound further out, it writes the parent frame's own table, because a call environment's maps are its table and the whole defining environment (line 334), and setting a key on a `ChainMap` writes its first map; afterwards the name looks up to the new value |
| Environment.ChangeShadowsOuter | analyze_eval.py:315-334 | when the binding is two or more frames out, the parent frame gains a new binding of the name to the value and every other frame, including the one holding the old binding, stays as it was |
| Environment.ZipBindKeys | analyze_eval.py:332-334 | zipping binds exactly the first k parameters |
| Environment.ZipBindValues | analyze_eval.py:332-334 | each zipped parameter is bound to its argument unless a later parameter repeats its name |
| Environment.BindingsSpec | analyze_eval.py:332-334 | the call frame binds exactly the first min(#params, #args) parameters; with distinct parameters and matching counts each gets its own argument |
| Environment.CallFrame | analyze_eval.py:332-334 | a call adds one frame whose parent is the defining frame; unbound-in-frame names resolve as in the defining scope; the arena stays linked |
| Environment.LookupPrefix | analyze_eval.py:315-321 | adding frames never changes lookups from existing frames |
| Environment.DefineKeepsLinked | analyze_eval.py:243-245 | `define` and `change` keep every parent link pointing to an earlier frame |
| Operators.StandardTableBindsKeys | analyze_eval.py:422-454 | the standard environment binds each operator under its name |
| Operators.CheckTypes | analyze_eval.py:360 | the type stream advances at most once per argument |
| Operators.SequentialOperate | analyze_eval.py:369-375 | the fold loop returns the left fold of the binary operation over the arguments |
| Operators.FoldStops | analyze_eval.py:369-375 | a failing step of the fold is the fold's result |
| Operators.FoldStopsFrom | analyze_eval.py:369-375 | once a fold prefix fails, every longer prefix has the same failure |
| Operators.MaxPrefix | analyze_eval.py:445 | the maximum of numbers is a number |
| Operators.MinPrefix | analyze_eval.py:446 | the minimum of numbers is a number |
| Operators.CheckBeforeOperate | analyze_eval.py:351-361 | an operator rejects a call iff its check fails, and otherwise returns what `operate` computes; an arity failure leaves the type stream where it was |
| Operators.ConstantStreamChecksAll | analyze_eval.py:405-420 | a repeating stream accepts the arguments iff every one fits its type |
| Operators.NumericCheck | analyze_eval.py:355-361 | an arithmetic operator of the right arity accepts its arguments iff all are numbers (booleans included) |
| Operators.OneListFirstCallOnly | analyze_eval.py:409-412 | a list operator's first call needs a list first argument and moves its stream on; every later call passes the type check |
| Operators.ConstantLaterPositions | analyze_eval.py:409-412 | past its first position the list stream accepts anything |
| Operators.ConsStreamEnds | analyze_eval.py:414-416 | the first `cons` needs a list second argument; after it the exhausted stream accepts everything |
| Operators.FloorDivSpec | analyze_eval.py:430 | `quotient` rounds toward negative infinity: the remainder has the divisor's sign and is smaller than it |
| Operators.CompareWithFirst | analyze_eval.py:377-381 | a numeric comparison is true iff the first argument compares true with each later one |
| Operators.NotChained | analyze_eval.py:377-381 | comparisons are not chained: `(< 1 5 3)` is true |
| Operators.PredicatesIgnoreTheirArgument | analyze_eval.py:444-451 | the type predicates return true for any single argument and raise for two or more |
| Operators.NotIsAlwaysTrue | analyze_eval.py:447 | `not` returns true for every argument |
| Operators.AddSums | analyze_eval.py:369-375 | `+` over numbers gives their sum |
| Operators.MaxIsFirstLargest | analyze_eval.py:445 | `max` returns the first argument that no other exceeds |
| Operators.MinIsFirstSmallest | analyze_eval.py:446 | `min` returns the first argument that no other undercuts |
| Operators.LargestAt | analyze_eval.py:445 | the argument `max` picks sits at a position where no argument exceeds it and every earlier one is strictly smaller |
| Operators.SmallestAt | analyze_eval.py:446 | the argument `min` picks sits at a position where no argument undercuts it and every earlier one is strictly larger |
| Operators.ConsCarCdr | analyze_eval.py:438-452 | `cons` puts a value in front of a list, and `car`/`cdr` take it apart again |
| Operators.AppendLists | analyze_eval.py:437 | `append` of two lists is their concatenation |
| Operators.AppendSymbolRaises | analyze_eval.py:437 | `append` of a list and a symbol raises (iterating the symbol rebuilds each character as a symbol from a plain string, analyze_eval.py:28), so the application fails with a plain error |
| Evaluator.Eval | analyze_eval.py:458-474 | evaluation only adds frames and names, never relinks a frame and never moves the procedure serial back |
| Evaluator.Step | analyze_eval.py:53-293 | each form's `evaluate` only adds frames and names |
| Evaluator.EvalSeq | analyze_eval.py:139-143 | a sequence of expressions only adds frames and names |
| Evaluator.EvalArgs | analyze_eval.py:66 | arguments evaluate to one value each and only add frames and names; a failure is not a value |
| Evaluator.Select | analyze_eval.py:172-176 | clause selection only adds frames and names |
| Evaluator.Apply | analyze_eval.py:332-340 | applying a procedure or operator only adds frames and names |
| Evaluator.SymbolLookup | analyze_eval.py:466-469 | a symbol evaluates to its innermost binding, changes nothing, and an unbound one raises a name error at the symbol |
| Evaluator.IfEvaluatesOneBranch | analyze_eval.py:116-120 | `if` evaluates the test, then exactly one branch; a missing alternative gives None; a failing test is the result |
| Evaluator.EvalSeqAppend | analyze_eval.py:139-143 | evaluating a sequence in two parts is evaluating the first part, then the rest if it succeeded |
| Evaluator.BeginTail | analyze_eval.py:139-143 | `begin` evaluates all but the last expression, then the last in the effects of the others |
| Evaluator.SelectFirstTrue | analyze_eval.py:172-176 | clauses are tried in order: when the first clauses all test false, selection continues with the later clauses in the state they left; otherwise the first clauses decide the result, and later clauses are never evaluated |
| Evaluator.SelectNoneTrue | analyze_eval.py:172-176 | `cond` finishes with None iff every test, evaluated in order, gives a false value |
| Evaluator.DefineBinds | analyze_eval.py:243-245 | `define` binds the value in the current frame, returns None and leaves every other name's lookup unchanged |
| Evaluator.SetBangSemantics | analyze_eval.py:268-273 | `set!` of a bound name rebinds it and returns None; of an unbound name it raises a name error at the form |
| Evaluator.EmptyApplication | analyze_eval.py:55-56 | the empty application evaluates to None and changes nothing |
| Evaluator.HeadFailurePassesThrough | analyze_eval.py:57 | an error while evaluating the head is the application's result unchanged, with no application frame added |
| Evaluator.ApplicationArguments | analyze_eval.py:66-69 | with a callable head, the first failing argument is the application's result unchanged (outside the `try`); when all arguments evaluate, the result is the call of the head on them in the state they left |
| Evaluator.ArgsStopAtFailure | analyze_eval.py:66 | arguments evaluate left to right and stop at the first failure, which is the result; later arguments are not evaluated |
| Evaluator.NotCallableHead | analyze_eval.py:57-59 | a non-callable head raises a type error at the application before any argument is evaluated |
| Evaluator.OperatorCheckTrace | analyze_eval.py:66-72 | a failed operator check is a type error whose frames are the application then the check's own frame, with the stream position moved |
| Evaluator.OperatorFailureTrace | analyze_eval.py:68-75 | a Python error inside an operator becomes a plain Lisp error at the application |
| Evaluator.ProcedureCall | analyze_eval.py:332-340 | a procedure runs its body in a new frame over its defining frame; an error gets the application prepended to its frames |
| Evaluator.EmptyBodyCall | analyze_eval.py:336-340 | a procedure with no body raises a plain Lisp error at the application |
| Evaluator.LambdaIsFresh | analyze_eval.py:207-208 | a lambda evaluates to a procedure over the current frame, and evaluating the same lambda again right after gives a procedure unequal to the first |
| Evaluator.LaterLambdaIsDistinct | analyze_eval.py:207-208 | a procedure made by a lambda is unequal to the procedure of any lambda evaluated in any later state, however much was evaluated in between (evaluation never moves the procedure serial back) |
| Wellformed.DatumIn | analyze_eval.py:289-290 | quoted data refer to no frame |
| Wellformed.OperateIn | analyze_eval.py:369-391 | operator results refer only to frames their arguments refer to |
| Wellformed.LookupIn | analyze_eval.py:466-469 | a looked-up value refers only to existing frames |
| Wellformed.DefineWf | analyze_eval.py:243-245 | `define` keeps the arena well formed |
| Wellformed.ChangeWf | analyze_eval.py:315-321 | `change` keeps the arena well formed |
| Wellformed.NewFrameWf | analyze_eval.py:332-334 | a call frame keeps the arena well formed |
| Wellformed.EvalWf | analyze_eval.py:458-474 | evaluation from a well-formed arena ends in a well-formed arena with a value referring to existing frames |
| Wellformed.StepWf | analyze_eval.py:53-293 | each form's `evaluate` keeps the arena well formed |
| Wellformed.EvalSeqWf | analyze_eval.py:139-143 | a sequence keeps the arena well formed |
| Wellformed.EvalArgsWf | analyze_eval.py:66 | argument evaluation keeps the arena well formed and yields values over existing frames |
| Wellformed.SelectWf | analyze_eval.py:172-176 | `cond` keeps the arena well formed |
| Wellformed.ApplyWf | analyze_eval.py:336-340 | a call keeps the arena well formed |
| Wellformed.CallLinksToDefinition | analyze_eval.py:332-334 | a procedure's call frame hangs off its defining frame, which exists |
| Budget.EvalMono | analyze_eval.py:458-474 | an evaluation that finishes within a budget gives the same result and state under any larger budget |
| Budget.StepMono | analyze_eval.py:53-293 | the same holds for one form's `evaluate` |
| Budget.EvalSeqMono | analyze_eval.py:139-143 | the same holds for a sequence |
| Budget.EvalArgsMono | analyze_eval.py:66 | the same holds for argument evaluation |
| Budget.SelectMono | analyze_eval.py:172-176 | the same holds for `cond` |
| Budget.ApplyMono | analyze_eval.py:336-340 | the same holds for a call |
| Session.FormsKeep | interpreter.py:15-37 | the form loop keeps the arena well formed, only adds top-level names, and reports the names bound at its end |
| Session.BuiltinsStayNamed | interpreter.py:5-37 | the standard names stay bound across calls and are always in the reported names |
| Session.InitialStoreNamesBuiltins | analyze_eval.py:422-456 | the session environment starts well formed with every standard name bound |
| Session.OneFormPerCall | interpreter.py:15-29 | by default one call evaluates the first form only, returns its printed value and the source from the next token on |
| Session.ReadErrorDropsRest | interpreter.py:31-34 | a reader error returns no value and an empty rest, and changes no binding |
| Session.LispErrorKeepsRest | interpreter.py:31-37 | an analysis or evaluation error returns no value and keeps the rest after the failing form |
| Session.NothingEvaluatedCrashes | interpreter.py:15-27 | when no form is evaluated the call crashes on the unset result |
| Session.FormsBudget | interpreter.py:15-23 | a form loop that finishes within a budget is unchanged under a larger one |
| Session.InterpretBudget | interpreter.py:5-37 | a call that finishes within a budget is unchanged under a larger one |
| Session.Interpreter.constructor | analyze_eval.py:456 | the session environment starts as the standard environment |
| Session.Interpreter.EvalLoop | analyze_eval.py:458-474 | the work-queue loop computes exactly `Eval` and leaves exactly its new state |
| Session.Interpreter.CallProcedure | analyze_eval.py:336-340 | calling a procedure by looping over its body computes exactly `Apply` and leaves exactly its new state |
| Session.Interpreter.Interpret | interpreter.py:5-37 | the entry point returns exactly what `InterpretSpec` gives, and the session environment stays well formed |

## Left out

- Floating point and `Fraction`: float and fraction literals are read and classified, but evaluating one, or quoting data that holds one, gives `Unsupported`. `/` on numbers is `Unsupported` except division by zero, which raises. `eq?` (object identity) is `Unsupported`.
- Reader.ParseAtom: Python's `int` and `float` also accept surrounding whitespace other than space and newline (a tab stays inside a token), digit-group underscores and non-ASCII digits. The model reads such tokens as symbols.
- The names of Python's `math` module (`pi`, `sqrt`, ...) in the standard environment are not modelled. In the model such a name is unbound: evaluating it raises a name error at the symbol, where Python gives a float, or, for a math function in head position, a type error at the application (analyze_eval.py:58-59). The reported set of names lacks them.
- Python's limit on integer string conversion (4300 digits by default) is not modelled. In Python `int()` of a longer integer literal raises `ValueError`, so `prase_atom` reads it as a float (interpreter.py:93-97); the model reads it as an integer. Printing an integer result of more than 4300 digits raises in `str(result)` and escapes `interpret` (interpreter.py:27); the model returns its text.
- A fraction literal whose value lies beyond the float range makes `float(Fraction(...))` raise `OverflowError`, which escapes `prase_atom` (interpreter.py:100); the model reads it as a float like any other fraction literal.
- Source locations, the text of error messages, `display` and all styled rendering are left out. An error is kept as its kind and its frame list in the reply, and a frame names the expression it is about.
- The prompt-toolkit shell itself is not modelled: key bindings, completion, backspace handling and the history. Only the functions it calls are modelled, and only the arithmetic of the space key.
- Python's recursion limit is replaced by a fuel budget. Running out of fuel gives `OutOfFuel` (`OutOfBudget` for a session call) rather than the generic error Python would wrap a `RecursionError` into; `Budget` proves the budget only bounds evaluation.
- Generators are modelled by their output: `StrGen`'s chunks as a sequence, and `TokenGen`'s tokens as a sequence read from an index. Laziness is not captured: a tokenizer advance in the middle of a chunk is not observable.
- Session.Interpret: a non-integer `eval_time` is not modelled (`Limit` is an integer or unbounded). A `max_in` below 1 with a non-empty source makes Python's `StrGen` loop forever; the model answers `Unmodelled`.
- The environment is mutated in place in Python and shared by reference. The model threads versions of an arena of frames and refers to frames by index, so closures sharing a frame see each other's writes through the shared index.
- Procedures and operators compare by identity in Python. A procedure carries a serial number that each lambda evaluation increments, and two operators are equal when they are the same standard operator.
- An empty `begin` and an atom holding a list cannot come out of analysis. The model evaluates them to `Unsupported`.
- A Python exception from analysis that is not a Lisp error (indexing past the end of a malformed `define`) escapes `interpret`; the model answers `Crashed`.
