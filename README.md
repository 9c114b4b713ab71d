# Stercus, modelled in Dafny

Stercus is a tiny bracket language over a flat memory of integer cells.

- An *applicator* `[acc app app …]` applies builtins or values to the cell `acc`. The builtins are `+ - . , _`: increment, decrement, print, read a byte, do nothing.
- A *conditional* `(acc …)` repeats its body while the cell `acc` is nonzero.
- An *application* `{name body}` defines a named application that a program can call.

The repository ships two toolchains:

- A compiler front end and back end:
  - comment removal;
  - a lexer;
  - a bracket checker and an extractor of `{name body}` definitions;
  - a C code generator.

  Next to it sits a small stack-driven interpreter.
- An older single-file script. It has its own preprocessing step and a recursive interpreter.

A third piece is a tool that turns text into a program printing that text's character codes.

This project models each of these, file by file:

| module (file) | models |
|---|---|
| `Wrappers` (wrappers.dfy) | `Option` and `Result` |
| `Lists` (lists.dfy) | counting, reversal and the "pop back to a marker" loop both `compile_body` and the stack interpreter use |
| `Text` (text.dfy) | Python's whitespace `split()`, `' '.join`, `'\n'.join`, `str(n)` and `int(s)` |
| `Constants` (constants.dfy) | the bracket pairs, the builtins and `DATA_SIZE` |
| `Preprocessor` (preprocessor.dfy) | `remove_comments` / `preprocess`: the two comment regexes as scanners |
| `Lexer` (lexer.dfy) | `lex`: the padding loop, then the split |
| `Parser` (parser.dfy) | `check_brackets`, `check_application_name`, `parse_applications`, `parse` |
| `Compiler` (compiler.dfy) | `apply`, `compile_body`, `compile_application`, `compile_main`, `compile` (emitted C text only) |
| `Cells` (cells.dfy) | memory, Python list indexing, `int()` of an interpreter value, and the builtins on one cell (shared by both interpreters) |
| `Runner` (runner.dfy) | the stack interpreter `run` with its `apply` and `push`, over a `DATA_SIZE + 1` cell array |
| `Interpreter` (interpreter.dfy) | the script's recursive `run`: `apply`, `expression`, `applicator`, `conditional`, the top loop |
| `ScriptText` (script_text.dfy) | the text step of the script's `preprocess`: comments, padding of `[ ] ( )`, whitespace collapse, strip, split |
| `TextEncoder` (text_encoder.dfy) | the text-to-program tool `parse` |

## How the model works

How the source's steps are expressed:

- Loops that change variables or lists in place are methods with `while`/`for` loops. Each is proved equal to a specification function, and the properties are lemmas about that function.
- The interpreters' memory is an `array<int>` that the methods update in place.
- Pure string and list code is functions.

How errors and non-termination are handled:

- Every Python exception on a path the source takes becomes an error value, never a precondition:
  - a pop from an empty list;
  - an `IndexError` on memory;
  - `int()` of a non-number;
  - reading past the end of input;
  - an unbound local;
  - a missing `main`.
- Programs may not halt. So the stack interpreter's main loop takes a step bound. The script's conditionals take an iteration bound, and its failure results include `OutOfFuel`.

How Python-specific behaviour is expressed:

- Python list indexing is explicit: a negative address counts from the end of memory.
- Python's `int(s)` accepts an optional sign and decimal digits.
- Dictionary iteration order is a parameter, where the source depends on it:
  - the order in which `compile` visits the applications;
  - the order in which the script applies its four padding rules.

Where the source behaves oddly, the model follows the code as written:

- The stack interpreter pushes the *accessor* after `]`, not the cell value.
- It never pops its loop stack when a loop finishes or is skipped.
- The script's `applicator` prints an error and returns nothing when `]` is missing. The model turns this into the error `MissingClose`.
- A conditional whose cell is zero on entry fails on the unbound `loop_end`. The model turns this into the error `ZeroOnEntry`.
- The stack interpreter's memory has `DATA_SIZE + 1` cells; the script's has 10000.

## Model

| member | source | states |
|---|---|---|
| Constants.Pair | compiler/stercus/constants.py:22-28 | every opening bracket has a closing partner |
| Lists.PopUntil | compiler/stercus/compiler.py:35-40 | popping to a marker splits the stack into what lies below the marker and the entries above it, in push order. There is no split exactly when the marker is absent |
| Lists.PopUntilSplit | compiler/stercus/compiler.py:35-40 | the decomposition `rest + [marker] + items`, with no marker in `items`, is exactly the one found |
| Lists.PopTo | compiler/stercus/compiler.py:35-40 | the pop-and-reverse loop computes `PopUntil`: the entries above the marker in push order and the stack left below it. It yields nothing when the stack runs out |
| Text.Split | compiler/src/stercus/lexer.py:16 | whitespace splitting yields only non-empty, whitespace-free words |
| Text.SplitConcat | compiler/src/stercus/lexer.py:16 | the words of a split, concatenated, are the text with all whitespace removed |
| Text.SplitAtSpace | compiler/src/stercus/lexer.py:16 | a whitespace character separates: splitting `a + ws + b` is splitting `a`, then `b` |
| Text.SplitJoin | compiler/src/stercus/lexer.py:16 | joining words with single spaces and splitting gives the words back |
| Text.ToDecimal | tools/text2stercus.py:11 | `str(n)` is a non-empty string of decimal digits with no leading zero |
| Text.ParseInt | compiler/src/runner.py:20 | `int(s)` succeeds exactly on an optional sign followed by at least one decimal digit |
| Text.ParseDecimal | tools/text2stercus.py:11 | `int(str(n)) == n` |
| Text.ParseSigned | compiler/src/runner.py:20 | a signed token reads back with its sign: `int('-' + str(n)) == -n` and `int('+' + str(n)) == n` |
| Preprocessor.FindClose | compiler/stercus/preprocessor.py:12-13 | finds the first `##`, with no earlier `##`. It finds none exactly when the text has no `##` |
| Preprocessor.StripBlocks | compiler/stercus/preprocessor.py:12-13 | removing `##…##` spans never lengthens the text and leaves text without `##` unchanged |
| Preprocessor.StripLines | compiler/stercus/preprocessor.py:14-15 | after removing `#…` to the end of each line, no `#` is left. Text without `#` is unchanged |
| Preprocessor.RemoveComments | compiler/stercus/preprocessor.py:10-19 | the result holds no `#`. Text without `#` comes back unchanged |
| Preprocessor.Preprocess | compiler/stercus/preprocessor.py:21-23 | `preprocess` is `remove_comments`, and its result holds no `#`. `PreprocessNoHash` and `PreprocessIdempotent` give its identity on `#`-free text and its idempotence |
| Preprocessor.PreprocessNoHash | compiler/stercus/preprocessor.py:21-23 | `preprocess` is the identity on text without `#` |
| Preprocessor.PreprocessIdempotent | compiler/stercus/preprocessor.py:21-23 | `preprocess(preprocess(s)) == preprocess(s)` |
| Preprocessor.LineComment | compiler/stercus/preprocessor.py:14-15 | a single-line comment is removed up to, but not including, its newline. The following line is kept and processed |
| Preprocessor.TrailingComment | compiler/stercus/preprocessor.py:14-15 | a comment on the last line is removed to the end of the text |
| Preprocessor.BlockComment | compiler/stercus/preprocessor.py:12-13 | a `##…##` span with no `##` inside it is removed, and scanning resumes after its closing `##` |
| Preprocessor.NonGreedyBlocks | compiler/stercus/preprocessor.py:12-13 | block removal is non-greedy: `##a##b##c##` becomes `b` |
| Preprocessor.CommentLine | compiler/tests/preprocessor.py:15-19 | a whole-line comment strips to the empty text |
| Preprocessor.CommentEndOfLine | compiler/tests/preprocessor.py:21-25 | `[0 1] # Comment…` strips to `[0 1] `, which is `[0 1]` once stripped |
| Preprocessor.CommentMultiline | compiler/tests/preprocessor.py:27-31 | a `##` comment spanning two lines strips to the empty text |
| Lexer.Lex | compiler/src/stercus/lexer.py:8-16 | the padding loop and split give `Tokens(src)`. No token is empty or holds whitespace, a token holding a bracket is that bracket alone, and the tokens concatenate to the source without its whitespace |
| Lexer.Tokens | compiler/src/stercus/lexer.py:8-16 | the reference token list has no contract of its own: it is the source with every bracket padded by spaces, split on whitespace. `TokensConcat`, `TokensBracketsAlone`, `TokensAtSpace`, `TokensAtBracket` and `TokensAreScan` state what it is |
| Lexer.PaddedAppend | compiler/src/stercus/lexer.py:10-15 | the padding loop works character by character: padding a concatenation pads each part |
| Lexer.PaddedNonSpace | compiler/src/stercus/lexer.py:11-15 | padding only adds whitespace |
| Lexer.TokensBracketsAlone | compiler/src/stercus/lexer.py:12-16 | every bracket character becomes its own one-character token |
| Lexer.TokensConcat | compiler/src/stercus/lexer.py:11-16 | concatenating the tokens gives the source with all whitespace removed |
| Lexer.TokensAtSpace | compiler/src/stercus/lexer.py:14-16 | whitespace only separates tokens: tabs, newlines and runs of spaces are insignificant |
| Lexer.TokensAtBracket | compiler/src/stercus/lexer.py:12-16 | a bracket splits the source: the tokens before it, the bracket, the tokens after it |
| Lexer.TokensAreLexTokens | compiler/src/stercus/lexer.py:12-16 | every token is a single bracket or a non-empty run without brackets or whitespace |
| Lexer.LexIdempotent | compiler/src/stercus/lexer.py:8-16 | `lex(' '.join(lex(s))) == lex(s)` |
| Lexer.PlainRunIsOneToken | compiler/src/stercus/lexer.py:14-16 | a run of non-bracket, non-space characters, such as `934`, stays a single token |
| Lexer.TokensAreScan | compiler/src/stercus/lexer.py:8-16 | lexing agrees with a direct scanner: skip whitespace, emit a bracket alone, or emit the longest plain run |
| Lexer.LargeNumbers | compiler/tests/lexer.py:33-37 | `[10\n934]` lexes to `[`, `10`, `934`, `]` |
| Parser.CountsPositive | compiler/stercus/parser.py:13-29 | while the counts match the stack, some count is positive exactly when some bracket is open |
| Parser.CountsPush | compiler/stercus/parser.py:20-29 | pushing an opener and incrementing its count keeps the counts equal to the occurrences on the stack |
| Parser.CountsPop | compiler/stercus/parser.py:34-44 | popping an opener and decrementing its count keeps the counts equal to the occurrences on the stack |
| Parser.AnyCountPositive | compiler/stercus/parser.py:24-28 | the scan over the counts is true exactly when one of `(`, `[`, `{` has a positive count |
| Parser.CheckBrackets | compiler/stercus/parser.py:12-44 | the counter-and-stack loop, which keeps the counts equal to the occurrences on the stack, raises exactly when the reference bracket check fails, and raises the same error |
| Parser.Brackets | compiler/stercus/parser.py:12-44 | the reference bracket check, a fold over the tokens with the stack of open brackets, has no contract of its own. `BracketsAppend`, `NestedRejected`, `TooManyClosingRejected`, `MismatchRejected`, `PlainTokensAccepted` and `UnclosedAccepted` state what it accepts and rejects |
| Parser.BracketsAppend | compiler/stercus/parser.py:19-44 | the check is a left-to-right pass: checking `p + q` is checking `q` on the stack `p` leaves, or `p`'s error |
| Parser.NestedRejected | compiler/stercus/parser.py:23-28 | a `{` while any bracket is open, including another `{`, is rejected as a nested definition |
| Parser.TooManyClosingRejected | compiler/stercus/parser.py:34-38 | a closer with nothing open is rejected as too many closing brackets |
| Parser.MismatchRejected | compiler/stercus/parser.py:40-43 | a closer that is not the partner of the innermost open bracket is rejected |
| Parser.PlainTokensAccepted | compiler/stercus/parser.py:19-44 | tokens that are not brackets pass and leave the stack unchanged |
| Parser.UnclosedAccepted | compiler/stercus/parser.py:12-44 | there is no end-of-input check: input ending with a bracket still open passes |
| Parser.FirstBadChar | compiler/stercus/parser.py:49-52 | finds the first character that is not an ASCII letter or `_`. It finds none exactly when the name is valid |
| Parser.CheckApplicationName | compiler/stercus/parser.py:46-52 | the name check passes exactly when every character is an ASCII letter or `_`, and otherwise reports that name |
| Parser.EmptyNameAccepted | compiler/stercus/parser.py:49-52 | the empty name passes |
| Parser.BraceNameRejected | compiler/stercus/parser.py:49-52 | `}` as a name is rejected |
| Parser.ParseApplications | compiler/stercus/parser.py:54-76 | the extraction loop computes the table the extraction function describes |
| Parser.Extract | compiler/stercus/parser.py:54-76 | the extraction loop as a function of its state has no contract of its own. `ExtractOutside`, `ExtractInside` and `ExtractClose` relate it to the independent list of definitions, and `ApplicationsChecked` gives each name its body and puts the residue under `main` |
| Parser.ExtractOutside | compiler/stercus/parser.py:59-75 | outside a definition, the extraction loop agrees with the reference list of definitions |
| Parser.ExtractInside | compiler/stercus/parser.py:59-75 | inside a definition opened at `oi`, the loop agrees with the reference from `oi` on |
| Parser.ExtractClose | compiler/stercus/parser.py:62-73 | at the closing `}`, the name is the token after `{`, the body is the tokens strictly between them, and the whole span is cut out |
| Parser.CheckedBraces | compiler/stercus/parser.py:12-44 | input that passes the bracket check alternates `{` and `}`. It ends outside a definition exactly when no `{` is left open |
| Parser.ApplicationsChecked | compiler/stercus/parser.py:54-76 | for checked input, `parse_applications` maps each name to its body and leaves the residue under `main` |
| Parser.DefinitionsShape | compiler/stercus/parser.py:59-75 | for checked input, the residue holds no `}` (no brace at all when every definition closes), and each definition holds no brace |
| Parser.ApplicationsNoBraces | compiler/stercus/parser.py:75 | a token list with no `{` or `}` comes back as `{main: tokens}` |
| Parser.Substitute | compiler/stercus/parser.py:82 | every `$` token becomes `s0` and every other token is kept |
| Parser.Parse | compiler/stercus/parser.py:78-87 | `parse` is the bracket check, then the `$` substitution, then the ban on `main`, then extraction |
| Parser.ParseResult | compiler/stercus/parser.py:78-87 | what `parse` returns has no contract of its own. `ParseRejectsMain`, `ParseOk`, `BracketsSubstitute` and `ParseOneDefinition` state its errors and the shape of a success |
| Parser.BracketsSubstitute | compiler/stercus/parser.py:80-82 | the substitution does not change the bracket check |
| Parser.ParseRejectsMain | compiler/stercus/parser.py:83-86 | a token `main` anywhere is rejected once the brackets check out |
| Parser.ParseOk | compiler/stercus/parser.py:78-87 | a successful parse has a `main` entry, free of `$` and `main`. It is brace-free when every definition closes |
| Parser.ResidueFromTokens | compiler/stercus/parser.py:71 | every token left over is one of the input's tokens |
| Parser.SubstituteNoDollar | compiler/stercus/parser.py:82 | without `$`, the substitution is the identity |
| Parser.ParseApplicator | compiler/tests/parser.py:15-21 | `parse(['[', '0', '1', ']'])` is `{'main': ['[', '0', '1', ']']}` |
| Parser.ParseOneDefinition | compiler/stercus/parser.py:78-87 | one well-formed definition followed by code parses to that definition, with `$` replaced, and the code as `main` |
| Parser.ParseInc | compiler/stercus/parser.py:78-87 | `{inc [$ +]} [0 inc]` defines `inc` as `[s0 +]` and leaves `[0 inc]` as `main` |
| Compiler.Emit | compiler/stercus/compiler.py:12-28 | a builtin gives its fixed statement, a known application a call, and anything else an assignment. `_` gives nothing |
| Compiler.Apply | compiler/stercus/compiler.py:12-28 | `apply` appends exactly the statement `Emit` gives |
| Compiler.BuiltinStatements | compiler/stercus/compiler.py:15-28 | on `d0[0]`: `+` gives `d0[0]++;`, `-` gives `d0[0]--;`, `.` gives `putchar(d0[0]);`, `,` gives `d0[0] = getchar();`, `13` gives `d0[0] = 13;` |
| Compiler.EmitAllAppend | compiler/stercus/compiler.py:42-43 | the applications after the accessor are emitted in source order |
| Compiler.CompileBody | compiler/stercus/compiler.py:30-62 | the token loop computes the reference body text, or the pop error |
| Compiler.Step | compiler/stercus/compiler.py:33-61 | one token of the body pass has no contract of its own. `StepLoopLines`, `CloseApplicator`, `LiteralGuard`, `ApplicatorGuard`, `OpenLiteral` and `CloseLoop` state its effect for each kind of token |
| Compiler.Run | compiler/stercus/compiler.py:33-61 | the pass over all tokens has no contract of its own. `RunAppend` makes it a left fold, `LoopLines` counts its loop lines, and `PlainTokensPushed` covers plain runs |
| Compiler.BodyText | compiler/stercus/compiler.py:30-62 | the text `compile_body` returns has no contract of its own. `CompileBody` computes it, and `CompileBuiltins`, `CompileAssignFromVariable`, `CompileSimpleConditional` and `CompileNestedConditional` fix its output on the test programs |
| Compiler.CloseApplicatorStep | compiler/stercus/compiler.py:34-46 | the `]` branch computes the reference step |
| Compiler.ApplyAll | compiler/stercus/compiler.py:42-43 | the `apply` loop appends the statements of every application after the accessor, in order |
| Compiler.CloseConditionalStep | compiler/stercus/compiler.py:47-51 | the `)` branch computes the reference step |
| Compiler.PopConditional | compiler/stercus/compiler.py:48-50 | the `)` pops discard everything back to and including `(`, or fail on the empty stack |
| Compiler.RunAppend | compiler/stercus/compiler.py:33-61 | the body pass is a left-to-right fold over the tokens |
| Compiler.StepLoopLines | compiler/stercus/compiler.py:47-54 | one step adds one `while(1){` line per `(` and one `}` line per `)`, and no other loop lines |
| Compiler.LoopLines | compiler/stercus/compiler.py:30-62 | the output holds exactly as many `while(1){` lines as the input has `(`, and as many `}` lines as it has `)` |
| Compiler.CloseApplicator | compiler/stercus/compiler.py:34-46 | `]` pops back to `[`. The first entry is the accessor and the rest are applied in order. A guard follows right after `(`, and `d0[acc]` is pushed |
| Compiler.LiteralGuard | compiler/stercus/compiler.py:57-61 | a literal right after `(` emits `if(!d0[tok]){break;}` |
| Compiler.ApplicatorGuard | compiler/stercus/compiler.py:44-46 | an applicator right after `(` emits `if(!d0[d0[acc]]){break;}` |
| Compiler.Applicator | compiler/stercus/compiler.py:34-61 | a bracket-free applicator applies every later token to the first and leaves `d0[first]` on the stack |
| Compiler.PlainTokensPushed | compiler/stercus/compiler.py:57-61 | plain tokens not right after `(` are pushed and emit nothing |
| Compiler.AssignCell | compiler/stercus/compiler.py:34-46 | `[acc [inner]]` emits `d0[acc] = d0[inner];` |
| Compiler.OpenLiteral | compiler/stercus/compiler.py:52-61 | `( tok` emits `while(1){` and the guard on `d0[tok]` |
| Compiler.CloseLoop | compiler/stercus/compiler.py:47-51 | `)` drops everything back to its `(` and emits `}` |
| Compiler.CompileBuiltins | compiler/tests/compiler.py:38-56 | the five single-builtin programs give the statements the tests expect |
| Compiler.CompileAssignFromVariable | compiler/tests/compiler.py:62-64 | `[0 [1]]` compiles to `d0[0] = d0[1];` |
| Compiler.CompileSimpleConditional | compiler/tests/compiler.py:66-71 | `(0 [0 .])` compiles to a loop guarded on `d0[0]` that prints `d0[0]` |
| Compiler.CompileNestedConditional | compiler/tests/compiler.py:73-82 | nested conditionals compile to nested guarded loops |
| Compiler.CompileCustomCalls | compiler/tests/compiler.py:85-127 | a known application becomes a call, `inc(0);` or `inc(s0);`, and `s0` is an ordinary accessor |
| Compiler.Compile | compiler/stercus/compiler.py:82-110 | `compile` computes the reference layout for the given visiting order and leaves the table without `main` |
| Compiler.CompileApplication | compiler/stercus/compiler.py:64-70 | the prototype `void name(unsigned int s0);` and the definition wrapping the body in braces. It has no contract of its own; `CompileAllShape` and `CompileOne` state the declaration and definition it yields |
| Compiler.CompileMain | compiler/stercus/compiler.py:72-80 | the `main` function around the body, allocating `DATA_SIZE` cells. It has no contract of its own; `CompileLayout`, `DataSizeText` and `CompileEmpty` state its text |
| Compiler.CompileResult | compiler/stercus/compiler.py:82-110 | what `compile` returns for a visiting order has no contract of its own. `Compile` computes it, `CompileLayout` gives its layout, `MissingMainRejected` its missing-`main` error, and `CompileAllPrefix` the first failure |
| Compiler.CompileAllPrefix | compiler/stercus/compiler.py:94-98 | the first application that fails to compile fails the whole table |
| Compiler.CompileAllShape | compiler/stercus/compiler.py:64-70 | the k-th declaration is `void name(unsigned int s0);` for the k-th application, and the k-th definition is its compiled body in braces |
| Compiler.CompileLayout | compiler/stercus/compiler.py:94-110 | the output is the boilerplate, then every declaration, then every definition, then `main`, all compiled against the non-main names |
| Compiler.MissingMainRejected | compiler/stercus/compiler.py:87 | a table without `main` is rejected |
| Compiler.DataSizeText | compiler/stercus/compiler.py:75 | `main` allocates `calloc(10000, 1)` |
| Compiler.CompileEmpty | compiler/tests/compiler.py:34-36 | the empty program is the boilerplate plus an empty `main` |
| Compiler.CompileOne | compiler/stercus/compiler.py:82-110 | one application and `main`: its prototype, its definition, then `main` |
| Compiler.CompileSingleCustom | compiler/tests/compiler.py:85-95 | `{inc: [s0 +], main: [0 inc]}` gives the prototype of `inc`, a body `d0[s0]++;` and `inc(0);` in `main` |
| Cells.PyIndex | compiler/src/runner.py:8 | an address names a cell exactly when `-n <= a < n`, counting from the end when negative |
| Cells.IntOfInverse | compiler/src/runner.py:16 | `int()` of a pushed integer is that integer, and `int()` reads back the decimal token `str()` writes for a natural number |
| Cells.IntOfNotBuiltin | compiler/src/runner.py:4-16 | a token that `int()` accepts is not a builtin, so `apply` reaches its `int(application)` branch only for non-builtins and every number token lands there |
| Cells.Store | stercus.py:90 | the store sets exactly the addressed cell, or raises an `IndexError` exactly when the address is out of range |
| Cells.Builtin | stercus.py:55-68 | `+` and `-` step only the addressed cell, `.` appends it to the output, `,` stores the next input byte, and `_` does nothing. For `,` the byte is read before the cell is indexed, so exhausted input fails whatever the address. The address is out of range exactly when no other failure comes first |
| Cells.IncrementDecrement | stercus.py:58-61 | `+` then `-` on one cell restores memory |
| Cells.EchoInput | stercus.py:62-65 | `,` then `.` prints the byte read |
| Cells.Fresh | stercus.py:53 | memory starts as `n` zero cells |
| Cells.FreshAddresses | stercus.py:53 | in fresh memory every address below `n` reads zero, and `n` is out of range |
| Cells.BuiltinCell | compiler/src/runner.py:4-14 | the builtin on the memory array has the effect `Builtin` describes, with the same error in the same order: exhausted input before an out-of-range address |
| Runner.ApplyEffect | compiler/src/runner.py:4-16 | a builtin acts as `Builtin` says. For any other value, `apply` fails exactly when `int()` rejects it or the address is out of range, and `int()` is evaluated first. On success exactly the addressed cell holds the number, and memory size and both streams are unchanged |
| Runner.ApplyOnlyCell | compiler/src/runner.py:4-16 | `apply` changes at most the accessor's cell, only consumes input from the front, and only appends output |
| Runner.ApplyAllOnlyCell | compiler/src/runner.py:48-49 | applying all the values keeps every other cell unchanged, with the same stream discipline |
| Runner.ApplyAllAppend | compiler/src/runner.py:48-49 | the values are applied in source order |
| Runner.ApplyCell | compiler/src/runner.py:4-16 | `apply` on the memory array has the effect `Apply` describes, with the same error: for `,` exhausted input before the address, for a number `int()` before the address |
| Runner.ApplyEach | compiler/src/runner.py:48-49 | the apply loop on the array has the effect `ApplyAll` describes, or stops at the first error |
| Runner.NextClose | compiler/src/runner.py:23-24 | the skip loop finds the first `)` at or after the cursor, if any |
| Runner.Push | compiler/src/runner.py:18-29 | `push` never touches memory, the streams or the loop stack |
| Runner.PushCases | compiler/src/runner.py:18-29 | an integer naming a zero cell, arriving right after `(`, pops the `(` and moves the cursor to the next `)`. Otherwise the value is pushed, including when the exception handler fires |
| Runner.PushToken | compiler/src/runner.py:27-28 | a non-number is always pushed |
| Runner.PushValue | compiler/src/runner.py:18-29 | `push` over the memory array computes `Push` |
| Runner.InitialMemory | compiler/src/runner.py:32 | memory starts as `DATA_SIZE + 1` zero cells, so address `DATA_SIZE` is valid. Both stacks start empty and the cursor starts at 0 |
| Runner.StepOpen | compiler/src/runner.py:61-63 | `(` pushes its own position onto the loop stack and the marker onto the value stack |
| Runner.StepCloseApplicator | compiler/src/runner.py:40-50 | `]` pops back to `[`. The first entry is the accessor and the rest are applied in order. Then the accessor itself, not its cell, is pushed |
| Runner.StepCloseApplicatorErrors | compiler/src/runner.py:41-47 | `]` with no `[` below fails on the empty stack, and `[]` has no accessor |
| Runner.StepCloseConditional | compiler/src/runner.py:51-60 | at `)`, a nonzero cell sends the cursor to the top of the loop stack, which is popped; an empty loop stack fails. A zero cell moves past `)` with the loop stack unchanged |
| Runner.StepMemory | compiler/src/runner.py:38-66 | only `]` touches memory or the streams. Memory keeps its size, input is only consumed and output only grows |
| Runner.StepOn | compiler/src/runner.py:39-66 | one loop iteration over the memory array computes `Step` |
| Runner.Step | compiler/src/runner.py:39-66 | one iteration of the main loop has no contract of its own. `StepOpen`, `StepCloseApplicator`, `StepCloseApplicatorErrors`, `StepCloseConditional`, `PushCases` and `StepMemory` state its effect for each kind of token |
| Runner.Exec | compiler/src/runner.py:38-66 | the main loop for a step bound has no contract of its own. `ExecMonotone` and `ExecStreams` state its fuel monotonicity and its stream discipline, and `Run` computes it |
| Runner.CloseApplicator | compiler/src/runner.py:40-50 | the `]` branch over the memory array computes `Step` |
| Runner.CloseConditional | compiler/src/runner.py:51-60 | the `)` branch over the memory array computes `Step` |
| Runner.Run | compiler/src/runner.py:31-66 | the main loop computes `Exec` from fresh memory, for at most `fuel` iterations |
| Runner.ExecMonotone | compiler/src/runner.py:38-66 | a run that ends within some step bound ends the same way for every larger bound |
| Runner.ExecStreams | compiler/src/runner.py:38-66 | a halted run keeps memory's size, only consumes input and only appends output |
| Interpreter.Expr | stercus.py:71-76 | a successful expression ends strictly after its start and within the tokens |
| Interpreter.App | stercus.py:78-91 | a successful applicator ends strictly after its start and within the tokens |
| Interpreter.AppLoop | stercus.py:83-91 | the applicator's loop ends strictly after where it starts |
| Interpreter.Cond | stercus.py:93-110 | a successful conditional ends strictly after its start |
| Interpreter.CondLoop | stercus.py:99-110 | the repeat loop ends within the tokens |
| Interpreter.CondBody | stercus.py:100-107 | one pass of the body ends within the tokens |
| Interpreter.ExprDispatch | stercus.py:71-76 | `[` goes to `applicator`, `(` to `conditional`, and any other token is returned with the index after it |
| Interpreter.AppLoopValue | stercus.py:83-90 | the applicator's loop, when it succeeds, returns the accessor cell's value with the index just past the `]` it reached |
| Interpreter.AppValue | stercus.py:78-88 | a successful applicator's first expression yields a number `a` that names a cell, and the applicator returns `data[a]` with the index just past its `]` |
| Interpreter.CondLoopValue | stercus.py:99-110 | a conditional finishes with its accessor cell at zero and returns `NOP` |
| Interpreter.CondValue | stercus.py:93-110 | a conditional returns `NOP`, with the index at the end of the tokens or just past a `)` |
| Interpreter.ExprToken | stercus.py:71-76 | an expression yields `NOP`, the token under the cursor with the next index, or an applicator's integer ending just past a `]` |
| Interpreter.CondBodyEnd | stercus.py:100-107 | one pass of the body stops just after a `)`, or at the end of the tokens |
| Interpreter.CondLoopEnd | stercus.py:99-110 | the loop of `conditional` returns `loop_end`, where its last body pass stopped: the end of the tokens, or just past a `)` |
| Interpreter.ZeroOnEntryFails | stercus.py:98-110 | a conditional whose cell is zero when reached fails on the unbound `loop_end` |
| Interpreter.TopDiscards | stercus.py:113-115 | the top loop evaluates a plain token and discards it, going on with the next token |
| Interpreter.Top | stercus.py:113-115 | the top-level loop has no contract of its own. `TopDiscards` states that it discards each value and goes on, and `Run` computes it |
| Interpreter.Execute | stercus.py:112-115 | `run` from 10000 zero cells has no contract of its own. `CountdownProgram` states its output for the countdown program, and `Run` computes it |
| Interpreter.NumberToken | stercus.py:81 | a decimal token is not a bracket and not a builtin |
| Interpreter.CopyCell | stercus.py:84-90 | `[x [y]]` copies `data[y]` into `data[x]` and changes nothing else |
| Interpreter.IndirectIncrement | stercus.py:80-88 | `[[x] +]` increments the cell whose address is held in `data[x]` |
| Interpreter.UnclosedApplicator | stercus.py:83-91 | an applicator that runs out of tokens before `]` fails |
| Interpreter.CountdownLoop | stercus.py:99-109 | `(x . [x -])` started with the cell at `k` prints `k, k-1, …, 1` and leaves the cell at zero |
| Interpreter.CountdownProgram | stercus.py:93-115 | `[0 3] (0 . [0 -])` prints `3, 2, 1` |
| Interpreter.ApplyValue | stercus.py:55-68 | `apply` on the memory array handles exactly the builtins, with the effect and the error `Builtin` describes. For `,` exhausted input fails before the address is looked at. Any other value is left untouched and reported as not handled |
| Interpreter.Expression | stercus.py:71-76 | `expression` over the memory array agrees with `Expr` |
| Interpreter.Applicator | stercus.py:78-91 | `applicator` over the memory array agrees with `App` |
| Interpreter.Conditional | stercus.py:93-110 | `conditional` over the memory array agrees with `Cond` |
| Interpreter.ConditionalBody | stercus.py:100-107 | one pass of the body over the memory array agrees with `CondBody` |
| Interpreter.Run | stercus.py:112-115 | the top loop, from 10000 zero cells, agrees with `Execute` |
| ScriptText.Pad | stercus.py:13-16 | a padding substitution keeps empty text empty, and otherwise starts with a space or with the text's first character |
| ScriptText.Collapse | stercus.py:34 | collapsing whitespace runs keeps empty text empty and keeps whether the text starts with whitespace |
| ScriptText.TrimEnd | stercus.py:34 | the right strip is a prefix not ending in whitespace |
| ScriptText.SplitCollapse | stercus.py:34 | collapsing whitespace runs does not change the words |
| ScriptText.CollapseCanon | stercus.py:34 | after collapsing, every whitespace run is a single space |
| ScriptText.WhitespaceSteps | stercus.py:34 | collapsing, stripping and splitting on single spaces gives the whitespace split, or `['']` for blank text |
| ScriptText.PadNonSpace | stercus.py:13-16 | a padding substitution only adds or removes whitespace |
| ScriptText.PadSpaces | stercus.py:13-16 | after a padding substitution, every occurrence of its bracket has whitespace, or an end of the text, on both sides |
| ScriptText.PadKeepsSpaced | stercus.py:29-30 | a later padding substitution keeps an earlier one's brackets separated |
| ScriptText.PadAbsent | stercus.py:13-16 | a padding substitution leaves text without its bracket unchanged |
| ScriptText.PadAllSpaced | stercus.py:29-30 | after all four substitutions, in any order, every padded bracket is separated |
| ScriptText.PadAllNonSpace | stercus.py:29-30 | the four substitutions only change whitespace |
| ScriptText.TokensAreWords | stercus.py:25-34 | the tokens are the whitespace split of the padded text: no token is empty or holds whitespace, except the single `''` of blank text |
| ScriptText.Tokens | stercus.py:24-34 | the returned token list has no contract of its own. `TokensAreWords`, `BracketsStandAlone` and `TokensKeepText` state its shape |
| ScriptText.BracketsStandAlone | stercus.py:12-34 | each of `[ ] ( )` is a standalone token, whatever the dictionary's order |
| ScriptText.TokensKeepText | stercus.py:25-34 | the tokens concatenate to the comment-free text without its whitespace |
| ScriptText.NoPadding | stercus.py:12-34 | without `[ ] ( )`, the tokens are exactly the whitespace split, so `{` and `}` are not padded |
| TextEncoder.Parse | tools/text2stercus.py:8-12 | the accumulator loop computes the encoding: each character's decimal code, then ` . `, left to right |
| TextEncoder.Encoding | tools/text2stercus.py:8-12 | the reference output has no contract of its own. `EncodingAppend`, `EncodingAlphabet`, `EncodingDots` and `RoundTrip` state what it is |
| TextEncoder.Codes | tools/text2stercus.py:10-11 | two tokens per character |
| TextEncoder.EncodingEmpty | tools/text2stercus.py:9-12 | `parse('') == ''` |
| TextEncoder.EncodingAppend | tools/text2stercus.py:10-12 | `parse(a + b) == parse(a) + parse(b)` |
| TextEncoder.EncodingAlphabet | tools/text2stercus.py:11 | the output holds only decimal digits, spaces and `.` |
| TextEncoder.EncodingDots | tools/text2stercus.py:10-11 | the output holds exactly one `.` per character of the text |
| TextEncoder.SplitEncoding | tools/text2stercus.py:10-12 | splitting the output on whitespace alternates each character's code and `.` |
| TextEncoder.DecodeCodes | tools/text2stercus.py:10-12 | reading the code tokens back gives the text |
| TextEncoder.RoundTrip | tools/text2stercus.py:8-12 | splitting the output and reading the codes back recovers the text |

## Left out

- Every `main()` and the argument parsing, file reading and writing, and JSON in the command-line entry points. This is I/O plumbing, and the model takes and returns values instead.
- Real standard input and output. Input is a list of byte values still to be read, and output is the list of printed integers. The line format of Python 2's `print` is not modelled.
- The regular-expression engine in general. Only the specific patterns are modelled, each as the scan it performs.
- What the generated C code does, and the C compiler. Only the emitted text is modelled.
- The exception classes and their messages. Errors are an error datatype naming each case.
- Concurrency, time and randomness play no part in the core.
- Text.ParseInt: does not accept whitespace, which Python 2's `int()` strips around the number and between the sign and the digits (`int('- 5')` is -5). Tokens never hold whitespace after lexing or splitting.
- Compiler.Compile: the order in which Python iterates the table is a parameter. The lemmas are stated for every order, and the model does not fix one.
- ScriptText.BracketsStandAlone: the order of the four padding rules is a parameter, for the same reason. The properties hold for every order.
- Runner.Run: the main loop may not terminate, so it takes a step bound. A run still going when the bound is reached ends as `OutOfFuel`.
- Interpreter.Run: each conditional may loop forever, so it takes a bound on its iterations, and its body runs with one less. A program that needs more ends as `OutOfFuel`.
- Interpreter.Run: output printed before an error is not part of the error result. The printing itself happens at once in the source.
- Runner.Push: the bare `except` in `push` is modelled for the failures the handler can see: a non-number, an address out of range, and running off the end while skipping to `)`. An interrupt it would also catch is not modelled.
- TextEncoder.Parse: Python 2's `ord` on a byte string sees bytes. The model takes characters and uses their code points, which agree for byte values.
- The test harness files, and the empty stub `compile(self, out)` of the script (stercus.py:117-118), which does nothing.
