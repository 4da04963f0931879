# yaml-pipeline, modelled in Dafny

yaml-pipeline runs *procedure files*: lists of actions read from YAML. Each
action names a handler by its `kind`. An action's fields may hold
*directives*, one-key objects such as `{$expr: "..."}`, which are rewritten
into values before the handler runs. Expressions are a small pipe language:
`a(b, 1)|c()` applies functions from a runtime's function table to literals,
to variables and to the results of other calls. This project models the
engine and its side pieces, and proves what they promise.

- **Expression language** (`Tokenizer`, `Parser`, `ParserLaws`, `Evaluator`).
  - The tokenizer and the recursive-descent parser are methods with loops.
  - Each is proved equal to a functional specification.
  - The evaluator walks the tree and threads the runtime store.
- **`PipelineRuntime`** (`Runtime`).
  - A function table that shadows the variables.
  - Private procedures, handed out as deep copies.
  - `procedureResult`.
  - The pure built-ins: `identity`, `not`, `castBoolean`, `castString`, `isDefined`, `isNumber`, `setVar`, `createValueMapper`, `return`.
- **Directive preprocessor** (`Preprocessor`, `Engine.Preprocess`).
  - `$expr` is replaced by its value.
  - `expr$` is replaced by a callable that binds `$0…` and `$arguments`.
  - The tree is walked depth first and rewritten in place.
- **Step interpreter and handlers** (`Executor`, `ExecutorLaws`, `Engine`, `CustomCommand`).
  - Private-procedure registration, `skip` and `condition`.
  - Handler lookup before preprocessing.
  - Early return through `exit_procedure`.
  - The poll/retry loop, procedure invocation with a child runtime, and assert/assign commands.
  - `Engine` is a class over the runtime store. Each of its methods is proved to compute the corresponding function of `Executor`.
- **Utilities.**
  - The log-record filter (`FilterLog`).
  - The JSON Lines writer (`Jsonl`).
  - The continuation-token cursor (`Cursor`).
  - Base64 to hex, and the legacy GUID byte order of C# UUIDs (`Uuid`).
- **Schema-driven loader.**
  - Modules: `AstNodes`, `Schema`, `SchemaUtils`, `Validators`, `ErrorNode`, `TaggedNode`, `InlineNode`, `NodeSchema`, `NodeSchemaLoader`, `NodeSchemaLaws`, `NodeSchemaSafety`.
  - A schema files nodes by id and by tag.
  - A node schema classifies each key of an input object as attribute, child or property, collects errors and loads sub-nodes.
  - A module loader (`ModuleLoading`, `ModuleLoadingLaws`) walks a transition table over a list of input nodes. It covers both the component-schema and the YAML-schema variant.
- **Renderer** (`Renderer`).
  - The `Aggregator` indenting string builder.
  - The Python dataclass emitter and the transpiler's handler dispatch.

Host effects enter as parameters:
- the host built-ins and the `eval` directives are a `Host` function;
- procedure files are read through a loader oracle;
- external handlers are oracles that say which variables they write;
- the application exit signal is an oracle read after each poll wait;
- a cursor page fetch is a parameter.

## Model

| member | source | states |
|---|---|---|
| Tokenizer.SpacesEnd | src/expression-engine/tokenizer.ts:134-137 | the blank skip stops at the first character outside the space set (line 23), or at the end; every character it passes is blank |
| Tokenizer.NameEnd | src/expression-engine/tokenizer.ts:75-81 | a name spans the maximal run of `[A-Za-z0-9_$]` characters from its start |
| Tokenizer.DigitsEnd | src/expression-engine/tokenizer.ts:90-93 | a number spans the maximal run of digits from its start, with no sign or decimal point |
| Tokenizer.QuoteFrom | src/expression-engine/tokenizer.ts:58-61 | the literal loop stops at the first `"` after the opening one; no quote lies before it, and none at all when it finds none |
| Tokenizer.Scan | src/expression-engine/tokenizer.ts:98-132 | a recognised token always moves the cursor forward and stays within the input |
| Tokenizer.Lexer.constructor | src/expression-engine/tokenizer.ts:49-53 | the tokenizer starts at position 0 with an empty character buffer and no token |
| Tokenizer.Lexer.ParseLitteral | src/expression-engine/tokenizer.ts:55-69 | the token is the text strictly between the quotes and the cursor ends after the closing quote; with no closing quote the result is `reach_eof_too_soon` |
| Tokenizer.Lexer.ParseName | src/expression-engine/tokenizer.ts:71-84 | the Name token is the buffer followed by the maximal name run; the cursor ends on the first character after it |
| Tokenizer.Lexer.ParseNumber | src/expression-engine/tokenizer.ts:86-96 | the Number token is the buffer followed by the maximal digit run; the cursor ends after it |
| Tokenizer.Lexer.Start | src/expression-engine/tokenizer.ts:98-132 | `|`, `,`, `(`, `)` give a one-character token of their own type; `"` starts a literal, a name-start character a name, a digit a number; anything else is `no_matching_terminal` with the cursor left in place |
| Tokenizer.Lexer.Run | src/expression-engine/tokenizer.ts:134-162 | the main loop computes `Lex` of the input: blanks skipped, tokens pushed in source order, the buffer cleared after each one |
| Tokenizer.Tokenize | src/expression-engine/tokenizer.ts:49-163 | `tokenize(expression)` returns exactly `Lex(expression)` |
| Tokenizer.LexWellFormed | src/expression-engine/tokenizer.ts:143-146 | every emitted token is well formed: punctuation tokens hold their character, names and numbers their maximal runs, literals no quote |
| Tokenizer.ScanRendered | src/expression-engine/tokenizer.ts:98-132 | a well-formed token printed at a position and followed by a blank or the end scans back to itself |
| Tokenizer.LexRender | src/expression-engine/tokenizer.ts:134-162 | printing well-formed tokens separated by single spaces and tokenizing the text gives back exactly those tokens, in order |
| Tokenizer.TrailingSpaceFails | src/expression-engine/tokenizer.ts:23 | because `''` is in the space set, the blank skip reads past the end of any expression that ends in whitespace, which fails |
| Tokenizer.UnclosedLiteral | src/expression-engine/tokenizer.ts:63-65 | a literal with no closing quote fails with `reach_eof_too_soon` |
| Tokenizer.UnknownCharacterHangs | src/expression-engine/tokenizer.ts:147-158 | an unrecognised character is only logged and retried at the same position, so tokenizing never ends |
| Tokenizer.EmptyInput | src/expression-engine/tokenizer.ts:134-162 | the empty expression gives no token |
| Tokenizer.TicksExample | src/expression-engine/tokenizer.spec.ts:11-21 | `ticks(datetime, 5)` gives the six tokens of the test, in order |
| Parser.PipeExpr | src/expression-engine/parse-expression.ts:92-112 | without a `|` the left operand is returned with no token consumed; after a `|` at least that token is consumed |
| Parser.NameExpr | src/expression-engine/parse-expression.ts:195-201 | the parse never moves backwards and stays within the tokens |
| Parser.FunctionExpr | src/expression-engine/parse-expression.ts:114-145 | a call consumes at least its `(` and stays within the tokens |
| Parser.Arguments | src/expression-engine/parse-expression.ts:126-140 | the argument loop consumes at least the closing `)` |
| Parser.FunctionParam | src/expression-engine/parse-expression.ts:147-179 | an argument consumes at least one token |
| Parser.InnerExpr | src/expression-engine/parse-expression.ts:181-193 | the top-level pipe loop stays within the tokens |
| Parser.AstBuilder.constructor | src/expression-engine/parse-expression.ts:88-90 | the token stream starts at the first token |
| Parser.AstBuilder.PipeExpression | src/expression-engine/parse-expression.ts:92-112 | the method ends with the result and stream position of `PipeExpr` |
| Parser.AstBuilder.NameExpression | src/expression-engine/parse-expression.ts:195-201 | the method ends with the result and stream position of `NameExpr` |
| Parser.AstBuilder.FunctionExpression | src/expression-engine/parse-expression.ts:114-145 | the loop pushing each argument ends with the result and position of `FunctionExpr` |
| Parser.AstBuilder.FunctionParameter | src/expression-engine/parse-expression.ts:147-179 | the method ends with the result and position of `FunctionParam` |
| Parser.AstBuilder.InnerExpression | src/expression-engine/parse-expression.ts:181-193 | the loop ends with the result and position of `InnerExpr` |
| Parser.AstBuilder.Start | src/expression-engine/parse-expression.ts:203-224 | the start rule computes `Parse` of the tokens |
| Parser.GetAst | src/expression-engine/parse-expression.ts:88-227 | `getAst(tokens)` returns exactly `Parse(tokens)` |
| ParserLaws.ParseUnparse | src/expression-engine/parse-expression.ts:88-227 | parsing the printed tokens of any expression the grammar can produce gives that expression back |
| ParserLaws.ParseLexRender | src/expression-engine/parse-expression.ts:88-227 | tokenizing and then parsing the printed text of such an expression gives it back: the front end of `resolveExpression` is a round trip |
| ParserLaws.CallRoundTrip | src/expression-engine/parse-expression.ts:114-145 | a printed call `name(args)` parses back to a Function node with one child per argument, in order |
| ParserLaws.ArgRoundTrip | src/expression-engine/parse-expression.ts:147-179 | a printed argument followed by `,` or `)` parses back to itself; a bare name becomes a symbol leaf with no children |
| ParserLaws.PipeStep | src/expression-engine/parse-expression.ts:181-193 | one turn of the pipe loop reads `| target` and nests the result to the left |
| ParserLaws.LiteralLeafToken | src/expression-engine/parse-expression.ts:66-86 | a Number token becomes a numeric literal and a Litteral token a string literal, and the leaf gives its token back |
| ParserLaws.DigitsValueOfNatToString | src/expression-engine/parse-expression.ts:70-71 | the value read from the printed digits of a number is that number |
| ParserLaws.ChainedPipes | src/expression-engine/parse-expression.spec.ts:38-91 | `a()|b()|c()` is `Pipe(Pipe(a, b), c)` |
| ParserLaws.TrailingComma | src/expression-engine/parse-expression.ts:126-140 | `f(x,)` is accepted: a comma directly before `)` ends the loop |
| ParserLaws.LoneOperand | src/expression-engine/parse-expression.ts:203-218 | a lone literal, number or name is a complete expression |
| ParserLaws.OperandThenNonPipe | src/expression-engine/parse-expression.ts:184-189 | after a top-level operand anything but `|` raises `abd symbol` |
| ParserLaws.NonNameAfterPipe | src/expression-engine/parse-expression.ts:99-104 | a token other than a name after `|` is `syntaxic_error` naming that token |
| ParserLaws.BadStart | src/expression-engine/parse-expression.ts:220-223 | a first token that is not an operand is `syntaxic_error` naming it |
| ParserLaws.PipedCallArgument | src/expression-engine/parse-expression.ts:168-172 | a called argument cannot be piped: `f(g()|h())` fails at the `|` |
| ParserLaws.TwoPipesInArgument | src/expression-engine/parse-expression.ts:147-170 | an argument takes at most one pipe: `f(x|g|h)` fails at the second `|` |
| Evaluator.SetArgumentsSpec | src/pipeline-commands/action-details-preprocessor.ts:154-160 | `setArguments` sets `$0 .. $(n-1)` to the parameters and `$arguments` to the whole list, and changes no other variable and no procedure |
| Evaluator.StaleArgumentKept | src/pipeline-commands/action-details-preprocessor.ts:155-157 | a `$k` beyond the current parameters keeps the value an earlier, longer call left |
| Evaluator.Apply | src/expression-engine/helpers.ts:23 | applying a callable changes variables only: no runtime is added or removed and no procedure or procedure result changes |
| Evaluator.Compute | src/expression-engine/helpers.ts:48-62 | evaluating a node changes variables only, in the same store |
| Evaluator.ComputeArgs | src/expression-engine/helpers.ts:38-43 | the argument loop yields one value per argument, after the values already collected, each argument evaluated in the store the previous one left |
| Evaluator.ResolveExpression | src/expression-engine/helpers.ts:67-76 | resolving an expression changes variables only |
| Evaluator.CharsOf | src/expression-engine/tokenizer.ts:37-47 | the elements of an array spell a text exactly when each is a one-character string, and then the text holds them in order |
| Evaluator.Terminals | src/expression-engine/tokenizer.ts:37-47 | the character stream walks a string's characters or an array's elements; any other value is not iterable |
| Evaluator.ArraySourceSpells | src/expression-engine/tokenizer.ts:37-47 | an array of one-character strings resolves as the text it spells, so `["a", "b"]` reads the name `ab` |
| Evaluator.ResolveSource | src/expression-engine/helpers.ts:67-76 | resolving the printed text of an expression is evaluating that expression |
| Evaluator.FrontEndErrorsFirst | src/expression-engine/helpers.ts:71-72 | a tokenizer or parser error is raised before anything is evaluated, with the store unchanged |
| Evaluator.UnavailableFunction | src/expression-engine/helpers.ts:27-36 | an unknown function raises `function_unavaible` before any argument is evaluated |
| Evaluator.NonCallableFailsAtApplication | src/expression-engine/helpers.ts:31-45 | a name bound to a value that is not callable passes the `undefined` check; its arguments are evaluated and the call then raises a TypeError |
| Evaluator.SymbolLeafReads | src/expression-engine/helpers.ts:57-58 | a symbol leaf reads `getSymbol`; an absent name gives `undefined`, not an error, and nothing changes |
| Evaluator.ComputeArgsSnoc | src/expression-engine/helpers.ts:40-43 | arguments are evaluated left to right: one more argument is evaluated last, in the store the others left |
| Evaluator.SetVarPipe | src/pipeline-commands/pipeline-runtime.ts:141-148 | `"x" | setVar("n")` returns the literal and stores it as `n` in the runtime it runs in, and no other variable changes |
| Evaluator.SetVarCall | src/pipeline-commands/pipeline-runtime.ts:141-148 | `setVar(name)(value)` stores the value in the runtime it was bound to and returns it |
| Evaluator.DeferredCall | src/pipeline-commands/action-details-preprocessor.ts:91-94 | calling an `expr$` callable binds its parameters in the runtime it was built in, then evaluates its expression there |
| Evaluator.ReturnRaises | src/pipeline-commands/pipeline-runtime.ts:184-188 | the `return` built-in never returns normally: it raises `exit_procedure` carrying its argument |
| Runtime.SetVariable | src/pipeline-commands/pipeline-runtime.ts:291-293 | `setVariable` sets that one variable and leaves every other variable, the procedures and the procedure result as they were |
| Runtime.SetVariablesSpec | src/pipeline-commands/pipeline-runtime.ts:291-293 | setting several variables in order: the last write to a name wins and names never written keep their values |
| Runtime.SetVar | src/pipeline-commands/pipeline-runtime.ts:291-293 | `setVariable` on one runtime of the store leaves every other runtime unchanged |
| Runtime.DeepCopyIdentity | src/pipeline-commands/pipeline-runtime.ts:306-322 | `deepCopy` gives a value structurally equal to the original |
| Runtime.AddPrivateProcedure | src/pipeline-commands/pipeline-runtime.ts:295-297 | after `addPrivateProcedure`, `getProcedure` of that name gives the stored steps and every other name its old steps; the variables do not change |
| Runtime.GetProcedure | src/pipeline-commands/pipeline-runtime.ts:299-303 | `getProcedure` gives the stored steps, or `undefined` for an unknown name |
| Runtime.FunctionNamesShadow | src/pipeline-commands/pipeline-runtime.ts:281-289 | a name of a built-in always resolves to the built-in, even when a variable of that name is set |
| Runtime.SetThenGetSymbol | src/pipeline-commands/pipeline-runtime.ts:281-293 | any other name reads back the value last set |
| Runtime.MapperPairs | src/pipeline-commands/pipeline-runtime.ts:157-161 | `new Map(mapping)` takes one pair per element of the mapping array |
| Runtime.MapperLookup | src/pipeline-commands/pipeline-runtime.ts:162-168 | the mapper gives the value of the last pair with that key, and the default when no pair has it |
| Runtime.EntryPairs | src/pipeline-commands/pipeline-runtime.ts:157-169 | the mapper's entries give one key/value pair per entry, an array entry read as its first and second elements |
| Values.Put | src/pipeline-commands/action-details-preprocessor.ts:149-151 | after `o[key] = v` the key reads `v` and every other key reads what it did |
| Values.NatToString | src/pipeline-commands/action-details-preprocessor.ts:155-157 | the decimal spelling of an index is a non-empty string of digits |
| Evaluator.NotCall | src/pipeline-commands/pipeline-runtime.ts:89-91 | applying the `not` built-in to `v` returns the boolean negation of the truthiness of `v` and changes nothing |
| Evaluator.NotTwice | src/pipeline-commands/pipeline-runtime.ts:89-91 | `not` applied twice gives what `castBoolean` gives; on a boolean it gives the boolean back |
| Preprocessor.SpecialKey | src/pipeline-commands/action-details-preprocessor.ts:64-152 | a value is replaced exactly when it is a plain object with one key among `$expr`, `expr$` and the evaluation keys; an `expr$` entry becomes a callable over the runtime holding its source, and the store keeps its shape |
| Preprocessor.Rebuild | src/pipeline-commands/action-details-preprocessor.ts:149-151 | writing replacements back keeps the container's kind, keys and order and holds exactly the new children |
| Preprocessor.WalkFrom | src/pipeline-commands/action-details-preprocessor.ts:16-58 | the walk over a container's entries keeps its layout (array length, object keys in order) and the store's shape |
| Preprocessor.WalkFromKeeps | src/pipeline-commands/action-details-preprocessor.ts:16-58 | a successful walk keeps the entries already done and leaves every later entry that is neither a container nor a directive as it was |
| Preprocessor.Walk | src/pipeline-commands/action-details-preprocessor.ts:16-58 | `replaceRuntimeSymbolInArray`/`InObject` keep the container's layout and the store's shape |
| Preprocessor.Preprocess | src/pipeline-commands/action-details-preprocessor.ts:12-62 | `preprocess` keeps the action's layout and the store's shape |
| Preprocessor.RewriteCondition | src/pipeline-commands/procedure-file-executor.ts:96-101 | replacing the `condition` key leaves a plain object, and leaves the action unchanged when its condition is not a directive |
| Preprocessor.WalkUnchanged | src/pipeline-commands/action-details-preprocessor.ts:16-58 | a tree with no directive object comes back unchanged, with the store unchanged |
| Preprocessor.PreprocessUnchanged | src/pipeline-commands/action-details-preprocessor.ts:12-62 | an action with no directive object is left as it is |
| Preprocessor.RootNotReplaced | src/pipeline-commands/action-details-preprocessor.ts:60-61 | the action object itself is never a candidate: an action that is one `$expr` key keeps it |
| Preprocessor.DeferredNotDescended | src/pipeline-commands/action-details-preprocessor.ts:87-94 | an `expr$` entry becomes a callable over the runtime and its source is not walked, whatever it holds |
| Preprocessor.ExprReplaced | src/pipeline-commands/action-details-preprocessor.ts:82-86 | an `$expr` entry is replaced by the value of its expression, in the store the evaluation leaves |
| Preprocessor.ExprFailureAborts | src/pipeline-commands/action-details-preprocessor.ts:82-86 | a failing `$expr` aborts the walk with its error |
| Preprocessor.NotADirective | src/pipeline-commands/action-details-preprocessor.ts:71-77 | an object with two keys, or with one key that is not a directive name, is not replaced |
| CustomCommand.FirstFailure | src/pipeline-commands/actions/custom-command.ts:31-37 | no failure exactly when every condition is exactly `true`; otherwise the first failing assert, in order, raises `assertion_failed` with its message |
| CustomCommand.AssignEntries | src/pipeline-commands/actions/custom-command.ts:55-64 | assigning the entries of a plain object keeps the store's shape |
| CustomCommand.RunCommands | src/pipeline-commands/actions/custom-command.ts:49-66 | running the commands keeps the store's shape |
| CustomCommand.RunCustomCommand | src/pipeline-commands/actions/custom-command.ts:27-67 | a failing assert is the outcome and changes nothing; the store keeps its shape |
| CustomCommand.AssignEntriesPlain | src/pipeline-commands/actions/custom-command.ts:55-64 | entries with no callable are plain `setVariable` calls in order on that runtime |
| CustomCommand.RunCommandsPlain | src/pipeline-commands/actions/custom-command.ts:39-66 | without callables, `cmd` then `assigns` are upserts on the runtime, in order, and cannot fail |
| CustomCommand.EmptyCommand | src/pipeline-commands/actions/custom-command.ts:27-67 | an action with no asserts, no `cmd` and no `assigns` changes nothing |
| CustomCommand.AssertsBeforeCommands | src/pipeline-commands/actions/custom-command.ts:31-37 | a failing assert stops the action before any command runs |
| CustomCommand.TruthyIsNotTrue | src/pipeline-commands/actions/custom-command.ts:33 | only exactly `true` passes; a truthy `1` fails |
| Executor.Raise | src/pipeline-commands/procedure-file-executor.ts:68-73 | an error thrown out of the steps is a return exactly when it is `exit_procedure`, carrying its returned value; any other error is passed on |
| Executor.SetResult | src/pipeline-commands/procedure-file-executor.ts:75 | `procedureResult` of that runtime is set and every other runtime is unchanged |
| Executor.AddProcedureIn | src/pipeline-commands/procedure-file-executor.ts:86-89 | the private procedure is added to that runtime and every other runtime is unchanged |
| Executor.SetVarsIn | src/pipeline-commands/actions/invoke-procedure-file.ts:33-35 | one `setVariable` per entry on that runtime, every other runtime unchanged |
| Executor.ExecuteProcedureFile | src/pipeline-commands/procedure-file-executor.ts:30-38 | no runtime disappears, and no runtime that existed before other than the one it runs against has its private procedures or `procedureResult` changed; `exit_procedure` never escapes |
| Executor.EvaluateSteps | src/pipeline-commands/procedure-file-executor.ts:60-79 | `exit_procedure` is caught and becomes the result; no runtime disappears, and no runtime that existed before other than the one the steps run against has its private procedures or `procedureResult` changed |
| Executor.ExecuteSteps | src/pipeline-commands/procedure-file-executor.ts:81-112 | over the loop over the actions, no runtime disappears, and no runtime that existed before other than its own has its private procedures or `procedureResult` changed; an error it passes on is never `exit_procedure` |
| Executor.Steps | src/pipeline-commands/procedure-file-executor.ts:85-109 | over the actions from the i-th on, up to the first that does not end normally, no runtime disappears, and no runtime that existed before other than their own has its private procedures or `procedureResult` changed |
| Executor.ExecuteStep | src/pipeline-commands/procedure-file-executor.ts:86-108 | over one turn of the loop, no runtime disappears, and no runtime that existed before other than its own has its private procedures or `procedureResult` changed |
| Executor.Execute | src/pipeline-commands/procedure-file-executor.ts:114-138 | over `_execute`, no runtime disappears, and no runtime that existed before other than its own has its private procedures or `procedureResult` changed |
| Executor.RunHandler | src/pipeline-commands/procedure-file-executor.ts:136-137 | over a handler, no runtime disappears, and no runtime that existed before other than the calling one has its private procedures or `procedureResult` changed |
| Executor.Invoke | src/pipeline-commands/actions/invoke-procedure-file.ts:27-49 | over an invocation, no runtime disappears, and no runtime that existed before, the caller included, has its private procedures or `procedureResult` changed; no `exit_procedure` escapes the child |
| Executor.Poll | src/pipeline-commands/actions/poll-target.ts:32-87 | over polling, no runtime disappears, and no runtime that existed before, the caller included, has its private procedures or `procedureResult` changed; only variables change |
| Executor.Rounds | src/pipeline-commands/actions/poll-target.ts:43-79 | the loop never starts more than `maxRetryCount` rounds and counts up from where it started |
| Executor.PollRound | src/pipeline-commands/actions/poll-target.ts:47-71 | over one round, no runtime disappears, and no runtime that existed before, the caller included, has its private procedures or `procedureResult` changed |
| Executor.Targets | src/pipeline-commands/actions/poll-target.ts:49-64 | without error, one result per target is appended to the results gathered so far, which are kept |
| Executor.RunTarget | src/pipeline-commands/actions/poll-target.ts:50-62 | a target's procedure runs in a new runtime appended to the store, and every runtime that existed before keeps its procedures and its result |
| Executor.RunProcedure | src/pipeline-commands/procedure-file-executor.ts:40-58 | over `executeRuntimeProcedure`, no runtime disappears, and no runtime that existed before other than the one it runs against (the child, or the parent when there is none) has its private procedures or `procedureResult` changed; `exit_procedure` never escapes |
| ExecutorLaws.PrivateProcedureRegistered | src/pipeline-commands/procedure-file-executor.ts:86-89 | a `private-procedure` action is registered whatever else it says, `skip: true` included, and nothing of it is evaluated |
| ExecutorLaws.SkipSkips | src/pipeline-commands/procedure-file-executor.ts:92-94 | `skip: true` skips the action before its condition is looked at, and nothing changes |
| ExecutorLaws.FalsyConditionSkips | src/pipeline-commands/procedure-file-executor.ts:96-106 | a defined, falsy condition that is no directive skips the action and nothing changes |
| ExecutorLaws.DeferredConditionRuns | src/pipeline-commands/procedure-file-executor.ts:96-108 | an `expr$` condition becomes a callable, which is truthy, so the action runs without evaluating it |
| ExecutorLaws.UnknownKindSkipped | src/pipeline-commands/procedure-file-executor.ts:118-125 | an action whose kind has no handler is skipped before preprocessing, and nothing changes |
| ExecutorLaws.UnknownKindStepSkipped | src/pipeline-commands/procedure-file-executor.ts:85-125 | the same through the whole loop turn, for an action without a condition |
| ExecutorLaws.StepsShift | src/pipeline-commands/procedure-file-executor.ts:85-109 | the steps of a suffix run the same after any prefix |
| ExecutorLaws.StepsAppend | src/pipeline-commands/procedure-file-executor.ts:85-109 | running `a + b` is running `a`, then `b` from the state `a` left when `a` ended normally; otherwise no action of `b` runs |
| ExecutorLaws.StopsAtFirstExit | src/pipeline-commands/procedure-file-executor.ts:85-109 | once a run returns or fails, appended actions never run |
| ExecutorLaws.ReturnEndsProcedure | src/pipeline-commands/procedure-file-executor.ts:66-76 | a step that returns ends the procedure: the rest never runs and the returned value becomes `procedureResult` |
| ExecutorLaws.ResultResetUnlessReturned | src/pipeline-commands/procedure-file-executor.ts:64-76 | a procedure that does not return leaves `procedureResult` `undefined`, on success and on error alike |
| ExecutorLaws.PrivateProcedureFirst | src/pipeline-commands/procedure-file-executor.ts:45-58 | the parent's private procedure of that name wins: its steps run against the child and no file is read |
| ExecutorLaws.FileWhenNoPrivateProcedure | src/pipeline-commands/procedure-file-executor.ts:47-52 | without such a procedure the file runs; a file that cannot be read raises an error and changes nothing |
| ExecutorLaws.SeededFromParams | src/pipeline-commands/actions/invoke-procedure-file.ts:31-35 | the child starts with exactly the params as variables, the last entry for a name winning |
| ExecutorLaws.SeededWithoutParams | src/pipeline-commands/actions/invoke-procedure-file.ts:33 | absent params give a child with no variables |
| ExecutorLaws.InvokeStoresReturnedValue | src/pipeline-commands/actions/invoke-procedure-file.ts:37-48 | the caller's `storeReturnedValueInVariable` receives the value the child returned, or `undefined` when it did not return |
| ExecutorLaws.InvokeKeepsCallerProcedures | src/pipeline-commands/actions/invoke-procedure-file.ts:27-49 | no runtime that existed before the call gains or loses a private procedure or has its result changed |
| ExecutorLaws.NoRoundWithoutBound | src/pipeline-commands/actions/poll-target.ts:43-46 | with `maxRetryCount` absent, zero or negative no round runs and the stored outcome is false |
| ExecutorLaws.RoundsBounded | src/pipeline-commands/actions/poll-target.ts:43-46 | at most `maxRetryCount` rounds start |
| ExecutorLaws.SuccessStopsPolling | src/pipeline-commands/actions/poll-target.ts:43-71 | at any round before the bound, a round whose condition returns exactly `true` ends the loop at once: one more round counted, success, no wait |
| ExecutorLaws.ExitSignalStopsPolling | src/pipeline-commands/actions/poll-target.ts:43-79 | at any round before the bound, a failed round is counted and waited for; when the exit signal has fired by then, the loop ends unsatisfied and no further round starts |
| ExecutorLaws.ExitedStopsPolling | src/pipeline-commands/actions/poll-target.ts:43 | once the exit flag is set, the loop starts no round and ends unsatisfied with the state as it was |
| ExecutorLaws.FailedRoundRetries | src/pipeline-commands/actions/poll-target.ts:73-79 | a failed round before the bound, with the exit signal not fired after its wait, is counted and waited for, and the loop goes on from the next count |
| ExecutorLaws.TargetsResults | src/pipeline-commands/actions/poll-target.ts:47-64 | without error, the results gathered are the earlier ones followed by, for each target in order, the `procedureResult` of the fresh runtime created for it, run after the targets before it |
| ExecutorLaws.TargetResultAt | src/pipeline-commands/actions/poll-target.ts:47-66 | without error, the k-th result of a round is the `procedureResult` of the runtime created for the k-th target, in the state the earlier targets left |
| ExecutorLaws.ReturnBuiltinReturns | src/pipeline-commands/pipeline-runtime.ts:184-188 | the error the `return` built-in raises is read by the step interpreter as a return of its first argument, not as a failure |
| ExecutorLaws.OutcomeStored | src/pipeline-commands/actions/poll-target.ts:81-86 | the outcome reaches the caller only when `storeOutcomeInVariable` is defined, and then it is whether the loop succeeded |
| ExecutorLaws.PollChildSeeded | src/pipeline-commands/actions/poll-target.ts:50-56 | each polled runtime starts with its target's params, then `$pollIndex` set to the round number, which overrides a param of that name |
| Engine.ProcedureFileExecutor.constructor | src/pipeline-commands/procedure-file-executor.ts:32 | the executor starts from one runtime with no variables and no procedures, and no wait made |
| Engine.ProcedureFileExecutor.NewChildRuntime | src/pipeline-commands/actions/invoke-procedure-file.ts:31-35 | a new runtime seeded from the params is appended and nothing else changes |
| Engine.ProcedureFileExecutor.ReplaceRuntimeSymbols | src/pipeline-commands/action-details-preprocessor.ts:16-58 | the loop over a container's entries computes `Preprocessor.Walk` |
| Engine.ProcedureFileExecutor.PreprocessAction | src/pipeline-commands/action-details-preprocessor.ts:12-62 | computes `Preprocessor.Preprocess` on the runtimes |
| Engine.ProcedureFileExecutor.ExecuteProcedureFile | src/pipeline-commands/procedure-file-executor.ts:30-38 | computes `Executor.ExecuteProcedureFile` on the engine state |
| Engine.ProcedureFileExecutor.EvaluateProcedureSteps | src/pipeline-commands/procedure-file-executor.ts:60-79 | computes `Executor.EvaluateSteps` |
| Engine.ProcedureFileExecutor.ExecuteProcedureSteps | src/pipeline-commands/procedure-file-executor.ts:81-112 | the `for` loop over the actions computes `Executor.ExecuteSteps` |
| Engine.ProcedureFileExecutor.ExecuteStep | src/pipeline-commands/procedure-file-executor.ts:86-108 | computes `Executor.ExecuteStep` |
| Engine.ProcedureFileExecutor.Execute | src/pipeline-commands/procedure-file-executor.ts:114-138 | computes `Executor.Execute` |
| Engine.ProcedureFileExecutor.RunHandler | src/pipeline-commands/procedure-file-executor.ts:136-137 | computes `Executor.RunHandler` |
| Engine.ProcedureFileExecutor.ExecuteRuntimeProcedure | src/pipeline-commands/procedure-file-executor.ts:40-58 | computes `Executor.RunProcedure` |
| Engine.ProcedureFileExecutor.CheckAsserts | src/pipeline-commands/actions/custom-command.ts:31-37 | the assert loop reads the action, changes nothing and yields `CustomCommand.CheckAsserts` |
| Engine.ProcedureFileExecutor.AssignEntries | src/pipeline-commands/actions/custom-command.ts:55-64 | the assignment loop computes `CustomCommand.AssignEntries` |
| Engine.ProcedureFileExecutor.RunCustomCommand | src/pipeline-commands/actions/custom-command.ts:27-67 | computes `CustomCommand.RunCustomCommand` |
| Engine.ProcedureFileExecutor.RunCommands | src/pipeline-commands/actions/custom-command.ts:49-66 | the loop over the commands, stopping at the first that throws, computes `CustomCommand.RunCommands` |
| Engine.ProcedureFileExecutor.RunInvoke | src/pipeline-commands/actions/invoke-procedure-file.ts:27-49 | computes `Executor.Invoke` |
| Engine.ProcedureFileExecutor.RunPoll | src/pipeline-commands/actions/poll-target.ts:32-87 | the handler computes `Executor.Poll`: the loop, then `storeOutcomeInVariable` set to whether the exit condition held |
| Engine.ProcedureFileExecutor.RunPollLoop | src/pipeline-commands/actions/poll-target.ts:36-79 | the `while` loop, bounded by `maxRetryCount` and the exit flag, computes `Executor.Rounds` from zero rounds: its error, its success and the state it leaves |
| Engine.ProcedureFileExecutor.RunPollRound | src/pipeline-commands/actions/poll-target.ts:47-71 | computes `Executor.PollRound` |
| Engine.ProcedureFileExecutor.RunRound | src/pipeline-commands/actions/poll-target.ts:49-64 | the loop over the targets computes `Executor.Targets` |
| Engine.ProcedureFileExecutor.RunPollTarget | src/pipeline-commands/actions/poll-target.ts:50-62 | seeding the new runtime with the params, then `$pollIndex`, and running the procedure computes `Executor.RunTarget` |
| FilterLog.Includes | src/pipeline-commands/actions/filter-log.ts:60 | `message.includes(str)` holds exactly when `str` is a prefix of some suffix of the message |
| FilterLog.SomeStartsWith | src/pipeline-commands/actions/filter-log.ts:55 | true exactly when some entry of `avoidStartWiths` is a prefix of the message |
| FilterLog.SomeIncludes | src/pipeline-commands/actions/filter-log.ts:60 | true exactly when some entry of `avoidContains` occurs in the message |
| FilterLog.NoMessagePasses | src/pipeline-commands/actions/filter-log.ts:50-52 | a record without a `message` passes through unchanged |
| FilterLog.DroppedIff | src/pipeline-commands/actions/filter-log.ts:54-64 | a record with a string message becomes `null` exactly when the message starts with an entry of `avoidStartWiths` or contains one of `avoidContains`, and passes unchanged otherwise |
| FilterLog.EmptyEntryDropsAll | src/pipeline-commands/actions/filter-log.ts:54-62 | an empty string in either list drops every record with a string message |
| Jsonl.JoinSnoc | src/common/jsonl-utils.ts:13-25 | one more write adds one separator, unless nothing was written, then the element |
| Jsonl.JoinEndsWithLast | src/common/jsonl-utils.ts:13-25 | the output ends with the last element written: no trailing newline |
| Jsonl.JsonlWriter.constructor | src/common/jsonl-utils.ts:8-11 | a new writer has written nothing |
| Jsonl.JsonlWriter.Write | src/common/jsonl-utils.ts:13-25 | each call appends a newline unless it is the first, then the element; the output is the elements joined by newlines |
| Cursor.Advance | src/common/paginated-async-cursor.ts:26-41 | the first call queries with no token, a call after a page with a token queries with it, a call after a page without one returns false and changes nothing; the result is whether a query was made and its page is not empty |
| Cursor.Calls | src/common/paginated-async-cursor.ts:26-41 | n calls in a row give n results |
| Cursor.ExhaustedIsFinal | src/common/paginated-async-cursor.ts:36-38 | once `next` returns false for want of a token, every later call returns false, queries nothing and leaves `data` as it was |
| Cursor.EmptyPageStillContinues | src/common/paginated-async-cursor.ts:29-40 | an empty page that names a next page makes `next` return false, yet the following call fetches that next page |
| Cursor.PaginatedAsyncCursor.constructor | src/common/paginated-async-cursor.ts:18-24 | a new cursor has fetched nothing and keeps the query |
| Cursor.PaginatedAsyncCursor.Next | src/common/paginated-async-cursor.ts:26-41 | `next` computes `Cursor.Advance` on the cursor's state |
| Cursor.PaginatedAsyncCursor.Entries | src/common/paginated-async-cursor.ts:43-49 | `data` is empty before the first fetch and the last page's entries after |
| FilterLog.SomeElement | src/pipeline-commands/actions/filter-log.ts:60 | for an array message, `some(includes)` holds exactly when some entry of `avoidContains` is an element of the array |
| FilterLog.ArrayMessageMembership | src/pipeline-commands/actions/filter-log.ts:54-64 | an array message raises the `startsWith` TypeError when `avoidStartWiths` is non-empty; otherwise the record is dropped exactly when some entry of `avoidContains` is an element, and passes unchanged otherwise |
| FilterLog.ArrayMessageExample | src/pipeline-commands/actions/filter-log.ts:54-64 | with `avoidContains = ["a"]`, the message `["a"]` is dropped and `["b"]` passes |
| Uuid.ToInt32 | src/common/uuid-helper.ts:13-15 | the shifts and masks of `base64ToHex` work on 32-bit signed integers: the result is in range and equals the input when the input is already in range |
| Uuid.DigitValueIsIndexOf | src/common/uuid-helper.ts:9-12 | a character's digit value is its position in the base64 alphabet, or -1 when the alphabet does not hold it |
| Uuid.Base64ToHex | src/common/uuid-helper.ts:3-28 | the loop decodes exactly the first 24 characters, four at a time |
| Uuid.Hex | src/common/uuid-helper.ts:16-17 | two hex digits per byte |
| Uuid.Encode | src/common/uuid-helper.ts:31 | base64 text of a buffer has four characters per started group of three bytes |
| Uuid.Base64ToHexOfUuid | src/common/uuid-helper.ts:3-31 | for a 16-byte buffer, `base64ToHex` of its base64 text is its 32 hex digits |
| Uuid.HexIsHex | src/common/uuid-helper.ts:16-24 | every character of the hex text is a lowercase hex digit |
| Uuid.ReorderHex | src/common/uuid-helper.ts:32-37 | the `a`, `b`, `c`, `d` reordering of the hex text is the hex text of the buffer with its first three groups of bytes reversed |
| Uuid.ReorderInvolution | src/common/uuid-helper.ts:53-62 | the reordering of `toMongoNuuid` undoes that of `toCSUUID`: it is its own inverse |
| Uuid.DashedForm | src/common/uuid-helper.ts:38-47 | dashes at 8, 13, 18 and 23 around 32 hex digits give a canonical UUID |
| Uuid.CSUUIDForm | src/common/uuid-helper.ts:30-49 | `toCSUUID` of a 16-byte buffer is the dashed hex text of the reordered bytes, a canonical UUID |
| Uuid.ParseHex | src/common/uuid-helper.ts:64 | `Buffer.from(hex, 'hex')` has half as many bytes and its hex text is the input |
| Uuid.LowerHex | src/common/uuid-helper.ts:52 | `toLowerCase` leaves lowercase hex text unchanged |
| Uuid.UndashDashed | src/common/uuid-helper.ts:52 | removing the dashes from the dashed form gives the 32 digits back |
| Uuid.UndashCanonical | src/common/uuid-helper.ts:52 | the text `toMongoNuuid` works on is 32 hex digits |
| Uuid.MongoNuuidRoundTrip | src/common/uuid-helper.ts:30-65 | for a canonical lowercase UUID, `toCSUUID` of the buffer `toMongoNuuid` builds gives the UUID back |
| AstNodes.Keys | src/component-schema/node-schema.ts:62 | `Object.keys` of a dictionary has one key per entry |
| AstNodes.KeyAt | src/component-schema/node-schema.ts:92 | the i-th key of a dictionary is the key of its i-th entry |
| AstNodes.GetKey | src/component-schema/node-schema.ts:72 | `d[key]` is absent exactly when the key is not among the dictionary's keys |
| AstNodes.SetKey | src/component-schema/node-schema.ts:108 | after `d[key] = v` the key reads `v` and every other key reads what it did |
| AstNodes.SetKeyOrder | src/component-schema/node-schema.ts:108 | assigning an existing key keeps the key order; a new key goes last |
| AstNodes.SetKeyTwice | src/component-schema/node-schema.ts:143 | a second assignment to the same key overwrites the first in place |
| AstNodes.NewComponent | src/yaml-schema/component.ts:11-24 | a new component holds exactly the type and dictionaries it is given, empty by default |
| AstNodes.CreateComponentLoadResult | src/component-schema/ast-node.ts:27-32 | the result holds the component and the errors, none by default |
| AstNodes.AddTrace | src/component-schema/ast-node.ts:34-36 | a new context one step deeper: the old traces, then the key |
| AstNodes.CreateAstContext | src/component-schema/ast-node.ts:38-40 | a root context has exactly the one trace of its key |
| AstNodes.TracesRecordPath | src/component-schema/ast-node.ts:34-40 | a context reached from a root by `addTrace` records exactly the root and the keys of the path, in order |
| Validators.ValidateSimple | src/component-schema/validators.ts:5-17 | the validator reports no error exactly when the check holds, and otherwise one error with the built message and the context |
| Validators.AlwaysTrueValidator | src/component-schema/validators.ts:19-21 | accepts every value |
| Validators.IsStringValidatorAccepts | src/component-schema/validators.ts:23 | accepts exactly the strings; any other value gets one error `<value> Should be string` |
| Validators.IsNumberValidatorAsWrittenMisreports | src/yaml-schema/validators.ts:24 | the YAML schema's number validator rejects the string `abc` with the message `abc Should be string` |
| Validators.IsNumberValidatorAccepts | src/yaml-schema/validators.ts:24 | the corrected number validator accepts exactly the numbers and asks for a number otherwise |
| ErrorNode.ErrorLoad | src/component-schema/error-node.ts:15-20 | an error node loads any value as an `empty` component with exactly its message as error |
| TaggedNode.ReadKey | src/component-schema/tagged-node.ts:33 | `node[key]` throws exactly on null and undefined |
| TaggedNode.ValidateIdentity | src/component-schema/tagged-node.ts:5-15 | the identity validator reports nothing exactly for the identity string, and otherwise one error naming key, expected and actual value |
| TaggedNode.NewTaggedNode | src/component-schema/tagged-node.ts:17-30 | a tagged node is a node schema of that type with a tag identity |
| TaggedNode.TaggedHasIdentity | src/component-schema/tagged-node.ts:32-34 | `hasIdentity` throws exactly on null and undefined |
| TaggedNode.SpreadLookup | src/component-schema/tagged-node.ts:23-29 | after the spread a caller's key has the caller's detail, and any other key keeps the detail it had |
| TaggedNode.SpreadKeepsFirst | src/component-schema/tagged-node.ts:23-29 | the spread keeps the first key of the base first |
| TaggedNode.TaggedNodeKeys | src/component-schema/tagged-node.ts:17-30 | the identity key comes first with an attribute detail carrying the identity validator unless the caller redefines it; every other key has the caller's detail |
| TaggedNode.TaggedIdentityOfObject | src/component-schema/tagged-node.ts:32-34 | on a plain object, `hasIdentity` holds exactly when the object maps the identity key to the identity value, and never throws |
| TaggedNode.TaggedIdentityMatchesValidator | src/component-schema/tagged-node.ts:5-34 | `hasIdentity` holds exactly when the identity validator accepts what the value holds under the key |
| InlineNode.NewInlineNode | src/component-schema/inline-node.ts:5-16 | an inline node has the one required attribute key named by its identity value, with the given validator |
| InlineNode.ObjectKeys | src/component-schema/inline-node.ts:19 | `Object.keys` throws exactly on null and undefined and otherwise gives the value's own keys |
| InlineNode.InlineHasIdentity | src/component-schema/inline-node.ts:18-22 | `hasIdentity` throws exactly on null and undefined |
| InlineNode.InlineIdentityCases | src/component-schema/inline-node.ts:18-22 | an object has the identity exactly when it has one key, the identity value; a one-character string exactly when the identity value is `0`; numbers, booleans and functions never |
| Schema.GetNodeById | src/component-schema/schema.ts:35-41 | fails exactly for an unknown id, with `No such node id <id>` |
| Schema.GetNodeByTag | src/component-schema/schema.ts:43-49 | fails exactly for an unknown tag, with `No such node tag <tag>` |
| Schema.Schema.constructor | src/component-schema/schema.ts:16-18 | the schema is built by adding every entry in dictionary order |
| Schema.Schema.AddNode | src/component-schema/schema.ts:20-33 | `addNode` returns the schema itself, files the node under its id and appends it to the list of each tag |
| Schema.FileUnderAllTagged | src/component-schema/schema.ts:23-30 | each listing of a tag appends the node once more to that tag's list; other tags are untouched |
| Schema.AddedSpec | src/component-schema/schema.ts:20-33 | `addNode` keeps the schema consistent, replaces the node of that id (a new id goes last) and appends the node to each tag's list once per listing |
| Schema.EnumerateNodeIdsSpec | src/component-schema/schema.ts:55-67 | `refIds` yields the nodes of the ids in order, or those before the first unknown id and then raises `No such node id` |
| Schema.EnumerateNodeTagsKnown | src/component-schema/schema.ts:59-75 | `refTags` of known tags yields their lists in order |
| Schema.EnumerateNodeTagsUnknown | src/component-schema/schema.ts:59-75 | otherwise it yields the lists before the first unknown tag and then raises `No such node tag` |
| Schema.BuiltValid | src/component-schema/schema.ts:16-18 | a constructed schema is consistent |
| Schema.TwoNodesInOrder | src/component-schema/schema.spec.ts:10-48 | two nodes under one tag are enumerated in insertion order by `refIds` and by `refTags`, and `refEverything` yields them by id and then again under the tag |
| SchemaUtils.HasIdentity | src/component-schema/error-node.ts:11-13 | an error node recognises every value; only null or undefined can make `hasIdentity` throw |
| SchemaUtils.FindMatchingNode | src/component-schema/schema-utils.ts:21-23 | fails exactly when the search fails, and an error node with `Cannot find matching node` stands in when nothing matches |
| SchemaUtils.FirstMatchStops | src/component-schema/schema-utils.ts:11-16 | the first candidate that recognises the value is returned and later candidates are not asked |
| SchemaUtils.FirstMatchExhausted | src/component-schema/schema-utils.ts:8-19 | when no candidate recognises the value the search gives `undefined`, or the enumeration's own error |
| SchemaUtils.FirstMatchThrows | src/component-schema/schema-utils.ts:11-12 | a candidate that throws while asked aborts the search with its error |
| SchemaUtils.FirstMatchFound | src/component-schema/schema-utils.ts:8-19 | a node found is the first candidate that recognises the value |
| SchemaUtils.NeverMatchedNodeMatches | src/component-schema/schema-utils.ts:4-6 | `neverMatchedNode` always produces the error node |
| NodeSchema.BucketNames | src/component-schema/node-schema.ts:83 | one bucket name per target |
| NodeSchema.AddAttribute | src/component-schema/node-schema.ts:102-112 | throws `Attribute <key> require a validator` exactly when the key has no validator; a value the validator accepts is stored under the key, otherwise the validator's errors are appended and the component is left as it was |
| NodeSchema.AddProperty | src/component-schema/node-schema.ts:114-125 | throws `Property <key> require a child ast node` without property candidates, and otherwise throws exactly when matching or loading the value throws; a sub-component loaded without errors is stored under the key and nothing else changes, otherwise exactly its errors are appended |
| NodeSchema.SortByKeyPermutes | src/component-schema/node-schema.ts:54 | sorting the entries only reorders them |
| NodeSchema.SortByKeySorted | src/component-schema/node-schema.ts:54 | `load` visits the entries in key order |
| NodeSchema.KeyLessEqTotal | src/component-schema/node-schema.ts:54 | the key comparison is total |
| NodeSchema.KeyLessEqTransitive | src/component-schema/node-schema.ts:54 | the key comparison is transitive |
| NodeSchema.EntriesBounded | src/component-schema/node-schema.ts:54 | the entries of a value nest less deeply than it, so the recursive load ends |
| NodeSchemaLoader.LoadResult.constructor | src/component-schema/node-schema.ts:44-47 | the result object holds the component and the errors it is given |
| NodeSchemaLoader.LoadResult.PushErrors | src/component-schema/node-schema.ts:110 | `result.errors.push(...more)` appends the errors and leaves the component |
| NodeSchemaLoader.LoadResult.SetAttribute | src/component-schema/node-schema.ts:108 | stores the attribute under the key and leaves the errors |
| NodeSchemaLoader.LoadResult.SetProperty | src/component-schema/node-schema.ts:121 | stores the property under the key and leaves the errors |
| NodeSchemaLoader.LoadResult.SetChildren | src/component-schema/node-schema.ts:143 | stores the children list under the key and leaves the errors |
| NodeSchemaLoader.DetectMissingKeys | src/component-schema/node-schema.ts:91-100 | the loop appends exactly the missing-key errors `NodeSchemaLaws.MissingKeysExactly` characterises |
| NodeSchemaLoader.LoadNode | src/component-schema/node-schema.ts:43-69 | `load` creates a new result object and ends in the result, or throws the exception, of `NodeSchema.Load` |
| NodeSchemaLoader.LoadEntriesRun | src/component-schema/node-schema.ts:56-66 | the loop over the sorted entries computes `NodeSchema.LoadEntries` |
| NodeSchemaLoader.ApplyTargetActionRun | src/component-schema/node-schema.ts:71-89 | the bucket filter loop, stopping at the first bucket the key targets, computes `NodeSchema.ApplyTargetAction` |
| NodeSchemaLoader.AddAttributeRun | src/component-schema/node-schema.ts:102-112 | computes `NodeSchema.AddAttribute` on the result object |
| NodeSchemaLoader.AddPropertyRun | src/component-schema/node-schema.ts:114-125 | computes `NodeSchema.AddProperty` on the result object |
| NodeSchemaLoader.AddChildRun | src/component-schema/node-schema.ts:127-155 | the list is placed under the key first and grows as elements load; computes `NodeSchema.AddChild` |
| NodeSchemaLaws.MissingKeysExactly | src/component-schema/node-schema.ts:91-100 | an error is reported for exactly each required schema key the value does not own, naming the value's own keys, at most one per schema key |
| NodeSchemaLaws.ApplyTargetActionCases | src/component-schema/node-schema.ts:71-89 | null and undefined match no bucket and change nothing; a scalar, an array and an object each go to their bucket when the key targets it and otherwise get the `cannot be a` error (an array also reaches the property bucket after being refused as a child) |
| NodeSchemaLaws.UnknownKeyErrors | src/component-schema/node-schema.ts:61-64 | one error per unknown entry |
| NodeSchemaLaws.LoadEntriesUnknown | src/component-schema/node-schema.ts:56-66 | entries whose keys the schema does not know each add the `No key` error and nothing else |
| NodeSchemaLaws.LoadUnknownKeys | src/component-schema/node-schema.ts:43-69 | an object whose keys the schema does not know loads as an empty component with the missing-key errors, then one `No key` error per key in sorted order |
| NodeSchemaLaws.InlineLoad | src/component-schema/inline-node.ts:4-22 | an inline node recognises its one-key object and loads it with the value stored as attribute when the validator accepts it, and with exactly the validator's errors otherwise |
| NodeSchemaLaws.LoadChildrenShape | src/component-schema/node-schema.ts:145-154 | counting only: the element loop lists at most one component per element after those already listed, and adds no error exactly when it lists one for every element |
| NodeSchemaLaws.LoadChildrenExact | src/component-schema/node-schema.ts:145-154 | the element loop throws exactly when the matching or the load of some element throws; otherwise the list under the key is the earlier list followed by the components of the elements whose load reports no error, in order, and the errors of every other element are appended in order |
| NodeSchemaLaws.KeptAll | src/component-schema/node-schema.ts:149-153 | no element error is appended exactly when every element's component is listed |
| NodeSchemaLaws.AddChildShape | src/component-schema/node-schema.ts:127-155 | counting only: the list under the key has at most one component per element of the array, and no error is added exactly when it has one for every element |
| NodeSchemaLaws.AddChildExact | src/component-schema/node-schema.ts:127-155 | throws `Children of <key> require a child ast node` without child candidates; otherwise throws exactly when some element throws, and else the key holds exactly the components of the elements that loaded without errors, in order, with the errors of the others appended |
| NodeSchemaLaws.PropertyWithoutMatch | src/component-schema/node-schema.ts:114-125 | an object no candidate recognises is loaded by the error node and reports `Cannot find matching node` one step deeper, under the key |
| NodeSchemaLaws.ApplyKeepsOtherAttributes | src/component-schema/node-schema.ts:71-89 | filing a key's value never changes the attribute stored under another key |
| NodeSchemaLaws.LoadEntriesStores | src/component-schema/node-schema.ts:56-66 | an attribute key whose value the validator accepts ends up holding that value |
| NodeSchemaLaws.TaggedLoadKeepsIdentity | src/component-schema/node-schema-tagged.spec.ts:38-95 | a successful load of a tagged node stores the identity value as the identity key's attribute |
| NodeSchemaSafety.EnumeratedWellFormed | src/component-schema/schema.ts:51-87 | a ready enumeration yields only well-formed nodes |
| NodeSchemaSafety.FirstMatchSucceeds | src/component-schema/schema-utils.ts:8-19 | recognising a value that is not null or undefined never throws |
| NodeSchemaSafety.FindMatchingNodeReady | src/component-schema/schema-utils.ts:21-23 | a ready enumeration finds a well-formed node for any value that is not null or undefined |
| NodeSchemaSafety.LoadSucceeds | src/component-schema/node-schema.ts:43-69 | a well-formed schema loads, without throwing, any value that is not null or undefined and holds no null array element; problems are reported as errors |
| NodeSchemaSafety.LoadEntriesSucceeds | src/component-schema/node-schema.ts:56-66 | the entry loop never throws under the same conditions |
| NodeSchemaSafety.ApplySucceeds | src/component-schema/node-schema.ts:71-89 | filing a value never throws under the same conditions |
| NodeSchemaSafety.AddPropertySucceeds | src/component-schema/node-schema.ts:114-125 | loading a property never throws under the same conditions |
| NodeSchemaSafety.AddChildSucceeds | src/component-schema/node-schema.ts:127-155 | loading children never throws under the same conditions |
| NodeSchemaSafety.LoadChildrenSucceeds | src/component-schema/node-schema.ts:145-154 | the element loop never throws under the same conditions |
| NodeSchemaSafety.NullChildThrows | src/component-schema/tagged-node.ts:32-34 | a `null` element of a child array throws a TypeError as soon as a tagged candidate is asked about it |
| NodeSchemaSafety.MissingValidatorThrows | src/component-schema/node-schema.ts:103 | an attribute key without validator throws as soon as a scalar reaches it |
| ModuleLoading.ErrorsText | src/yaml-schema/module-loader.ts:67 | the errors interpolate as `[object Object]` once each, joined by commas |
| ModuleLoading.RefModule | src/yaml-schema/module-loader.ts:24-34 | fails exactly for an unknown id, with `Module <id> dot not exist`; otherwise gives the registered definition |
| ModuleLoading.Continue | src/component-schema/module-loader.ts:59 | the component schema's continuation never throws and gives a definition exactly for a registered id; the YAML loader's throws exactly for an unregistered id |
| ModuleLoading.ModuleLoader.constructor | src/component-schema/module-loader.ts:19-22 | a new loader has no definitions and a consistent schema built from the node details |
| ModuleLoading.ModuleLoader.AddDefinition | src/yaml-schema/module-loader.ts:42-47 | the definition is built from the schema and replaces any definition of that id |
| ModuleLoading.ModuleLoader.AddDefinitions | src/yaml-schema/module-loader.ts:36-40 | each entry is added in dictionary order |
| ModuleLoading.ModuleLoader.LoadModuleRun | src/yaml-schema/module-loader.ts:49-81 | the loops of `loadModule` compute `ModuleLoading.LoadModule`: `Root definition root was not found.` without a root, otherwise the walk over the nodes |
| ModuleLoading.ModuleLoader.RunNode | src/component-schema/module-loader.ts:48-61 | the inner loop over every transition, with no `break`, computes `ModuleLoading.RunTransitions` |
| ModuleLoadingLaws.RegisteredIds | src/component-schema/module-loader.ts:24-35 | `addDefinitions` adds exactly the ids of its entries and files each definition under its own id |
| ModuleLoadingLaws.RunTransitionsGrows | src/yaml-schema/module-loader.ts:58-75 | the walk over one node's transitions only appends components, at most one per transition, at least one when the last transition matched |
| ModuleLoadingLaws.LastTransitionDecides | src/yaml-schema/module-loader.ts:58-78 | a node is left unmatched exactly when the last transition finds no candidate for it |
| ModuleLoadingLaws.EarlierMatchDiscarded | src/yaml-schema/module-loader.ts:58-78 | a node whose last transition finds no candidate makes the module fail, with `No matching node` unless a transition threw first, whatever earlier transitions matched |
| ModuleLoadingLaws.LoadNodesGrows | src/yaml-schema/module-loader.ts:56-80 | the components returned extend those already collected, with at least one per node |
| ModuleLoadingLaws.LoadModuleCovers | src/yaml-schema/module-loader.ts:49-81 | `loadModule` returns at least one component per node, returns no component for an empty module when the root is registered, and fails with the root-missing error when there is no root definition |
| ModuleLoadingLaws.SingleTransitionStep | src/yaml-schema/module-loader.ts:58-75 | with one transition, a matched node adds exactly one component and the walk continues with a registered definition or none |
| ModuleLoadingLaws.LoadNodesOnePerNode | src/yaml-schema/module-loader.ts:56-80 | with one transition per definition, exactly one component per node |
| ModuleLoadingLaws.UnknownNextDefinition | src/component-schema/module-loader.ts:45-64 | an unregistered target: the YAML loader throws `Module <id> dot not exist` as soon as the node matches; the component schema loader carries on and fails with a TypeError only if another node follows |
| ModuleLoadingLaws.OneTransitionMatched | src/yaml-schema/module-loader.ts:60-72 | a transition that recognises the node and loads it without errors appends its component and makes its registered target current |
| ModuleLoadingLaws.ModuleSequenceInOrder | src/yaml-schema/module-loader.spec.ts:43-62 | a root that hands over to `module-b`, which keeps itself current, loads two nodes into their two components in input order |
| ModuleLoadingLaws.LoadErrorsThrow | src/yaml-schema/module-loader.ts:64-68 | a matched node whose load reports errors makes the module fail with `Component containt error` and the errors |
| Renderer.CreatePod | src/renderer/index.ts:20-34 | a pod is a `class` component with discriminator `pod`, no dependencies, an empty package path and the given name, kind and fields |
| Renderer.DotJoinSplit | src/renderer/index.ts:115-117 | `dotJoin` of a non-empty path whose segments hold no dot splits back at the dots into the same segments |
| Renderer.Repeat | src/renderer/index.ts:95 | `s.repeat(count)` has `count` times the length of `s` and only its characters |
| Renderer.SplitUnlines | src/renderer/index.ts:98-100 | lines written with `writeLine` read back as exactly those lines, then the empty remainder |
| Renderer.Aggregator.constructor | src/renderer/index.ts:89-92 | an empty result, four-space indent, depth zero |
| Renderer.Aggregator.Write | src/renderer/index.ts:94-96 | appends the chunk at the current indentation |
| Renderer.Aggregator.WriteLine | src/renderer/index.ts:98-100 | appends the line at the current indentation, then a newline |
| Renderer.Aggregator.Endl | src/renderer/index.ts:102-104 | appends exactly `count` newlines with no indentation |
| Renderer.Aggregator.Scope | src/renderer/index.ts:106-110 | the inner lines are written one level deeper and the depth is restored afterwards |
| Renderer.BuildPyPod | src/renderer/index.ts:119-141 | computes `Renderer.PyPod`: a file named after the pod holding its header, imports, dataclass line, class line and one indented line per field; a pod without fields raises a TypeError |
| Renderer.WriteImports | src/renderer/index.ts:124-127 | one import line per dependency, in order, at depth zero |
| Renderer.WriteClassLine | src/renderer/index.ts:129-132 | two blank lines, the decorator and the class line |
| Renderer.PyPodText | src/renderer/index.ts:119-141 | the text of the pod's lines is what `buildPyPod` writes piece by piece |
| Renderer.PyPodLayout | src/renderer/index.ts:119-141 | the generated file splits into exactly the pod's lines, 5 plus one per dependency plus one per field, and its path is the pod's name |
| Renderer.Components | src/renderer/index.ts:69-75 | one component per map entry, in insertion order |
| Renderer.AppComponentsComplete | src/renderer/index.ts:69-75 | every component of every package is yielded, once per entry |
| Renderer.TranspileOutcome | src/renderer/index.ts:144-161 | `transpile` succeeds exactly when every component is a pod with fields, and then returns no file; otherwise it fails with `No such handler` or the TypeError of the first pod without fields |
| Renderer.TranspileRejects | src/renderer/index.ts:150-156 | a component that is not a pod makes `transpile` throw `No such handler` when every component before it is a pod with fields |
| Renderer.CreatedPodsTranspile | src/renderer/index.ts:20-34 | pods built by `createPod` all transpile, to no file |
| Renderer.Transpile | src/renderer/index.ts:144-161 | the nested loops compute `Renderer.TranspileAll` of the components in package order |

## Left out

- The JavaScript-source directives (`$eval`, `$$eval`, `eval$`, `eval$$`) compile host code. They reach the `Host` parameter under their directive name. `eval$`/`eval$$` become a `DeferredScript` callable that calls the host when applied. In the program, `new Function` compiles their source when the directive is preprocessed, so a syntax error, or the TypeError of `.trim()` on a source that is not a string, is thrown at preprocess time; the model defers every such failure to the host call made when the callable is applied.
- The host built-ins keep only their names in the function table, with their calls going to the `Host` parameter. These cover the environment, time, file system, zip, XML/JSON parsing, regex, sprintf, lodash `get` and `Number()` casts. Only `identity`, `not`, `castBoolean`, `castString`, `isDefined`, `isNumber`, `setVar`, `createValueMapper` and `return` are modelled.
- Reading and parsing a procedure file (`executeProcedureFile`) is an oracle from names to steps; a read or parse failure is a `HostError`.
- Handlers that talk to external systems are oracles that name the variables they write and the error they raise. These are http-request, sql-query, mongo-query, puppeteer-job, shell-command and filter-log's stream pipeline.
- The OS processes of spawn-command, `dumpJsonlToFile`, the csv and sql utilities, timers and the event-emitter exit signal are not modelled. The exit signal is an oracle read after each poll wait, and every `await` runs in sequence.
- Numbers are integers. Floating point, `NaN` and `parseFloat` beyond a run of digits are not modelled; a number literal is a natural number.
- Closure application (`expr$` re-entry) and procedure invocation consume a fuel bound. A run that exhausts it ends in `OutOfFuel`, which the program itself never raises.
- Executor.MaxRounds: a `maxRetryCount` that is not a number allows no round. In the program, `count < max` on such a value follows JavaScript coercion, which is not modelled.
- Executor.Invoke: the claim that the handler "changes no caller variable" is not stated. Params may carry caller-owned closures (`setVar`, `expr$`) that the child can call. The model proves instead that no other runtime loses procedures or its `procedureResult`.
- Executor.Poll: the claim that the handler changes no caller variable other than `storeOutcomeInVariable` is not stated. A target's params and the exit condition may carry caller-owned closures (`setVar`, `expr$`) that write the caller's variables when called. The model proves instead that no runtime that existed before loses or gains private procedures or has its `procedureResult` changed.
- Evaluator.ResolveExpression: an array source with an element that is not a one-character string raises the `is not iterable` TypeError here. In the program the character stream walks the elements: an element outside a literal that matches no character set makes the tokenizer loop forever, an empty string acts as a space, and inside a literal every element is joined into the text.
- SymbolLeafReads: a name never set reads `undefined` here. In the program the variables are a plain object, so a name inherited from `Object.prototype` (`constructor`, `toString`, `hasOwnProperty`, `__proto__`, …) reads that inherited member. `Runtime.Variable` and `Runtime.GetSymbol` give the variables no prototype.
- SetVariable: `setVariable('__proto__', v)` is an ordinary upsert here. In the program it replaces the prototype of the variables object when `v` is an object or `null`, which makes the keys of `v` readable as variables, and it is ignored for any other `v`. "Every other variable is unchanged" holds for the model only, which has no prototype.
- SetVariablesSpec: the same `__proto__` write; in the program it can change names never written.
- SetThenGetSymbol: the same `__proto__` write; in the program a primitive set under `__proto__` does not read back.
- MapperLookup: keys are compared structurally. The program's `Map` compares objects, arrays and functions by identity, so a mapper asked with an array equal to a key, but not the same array, gives the default there.
- JsString: `String(f)` of a function is its source text in the program; function source text is not modelled, so the model gives `"function"`.
- Runtime.DeepCopyIdentity: values are immutable here, so the aliasing a deep copy protects against cannot be expressed. The lemma states only that the copy is structurally equal.
- Uuid.Lower: lower-casing is ASCII only.
- Uuid.ParseHex: reads lowercase hex digits only, which is what `toMongoNuuid` hands it after `toLowerCase`.
- `localeCompare` is modelled as code-unit order on keys. The JavaScript rule that integer-like keys come first in `Object.entries` is not modelled. Functions are not given own properties.
- The `Expected an array` branch of `addChild` cannot be reached, because arrays are always classified as children first. It is not modelled.
- A module continuation is modelled by the id of the definition it returns, looked up when it is called.
- src/component-schema/component.ts is not part of this model. Components use the shape of src/yaml-schema/component.ts.
- The YAML module loader reuses the component-schema `Schema`, node schemas and `Load`. The YAML-schema node-schema files are not part of this model.
- `newMatchingError`, `newTrace` and `newComponentLoadResult` are datatype constructors. The constant `type` of an error node (`'error'`) is not a separate member.
- `NodeSchema.Load` and its helpers thread the result object that `load` fills in place as a value.
- NodeSchemaSafety.LoadSucceeds: the claim that the only throws come from a key definition missing its validator, property or child enumerator is weaker here: loading `null` or `undefined` as a node, and an unknown id or tag in an enumeration, also throw.
- Renderer.Aggregator.Scope: the callback is modelled as the lines the inner builder writes. Only field lines are written inside a scope.
- Renderer.Aggregator.Endl: a negative count, which makes `repeat` throw a `RangeError`, is not modelled (the count is a `nat`).
- Renderer.BuildPyPod is modelled as written. A field line holds the field's name after the colon, not its type, and `class <name>` has no trailing colon.
- test/index.spec.ts is not encoded. It expects a string under a property-only key to load without error, which `NodeSchema.load` reports as an error.
- Tokenizer.Tokenize: a character that starts no token makes the program loop forever. This is modelled as the outcome `Hangs(index)` rather than as a precondition on the alphabet.

## Findings

| source | as written | input that shows it | evidently intended | confidence | as-written member | corrected member |
|---|---|---|---|---|---|---|
| src/yaml-schema/validators.ts:24 | `isNumberValidator` reports a non-number with the message `<value> Should be string` | `Str("abc")` gives the single error `abc Should be string` | the message `<value> Should be number` | not executed | Validators.IsNumberValidatorAsWrittenMisreports | Validators.IsNumberValidatorAccepts |
