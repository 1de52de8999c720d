# A verified model of the lslc compiler front end

lslc compiles LSL, the scripting language of virtual worlds, from source text to SLBC
bytecode.  This project models the whole path in Dafny (preprocessor, lexer, parser,
checker with symbol table and type rules, constant folder, emitter, and the "did you mean"
search) and proves that each phase does what it is for:

- **Pipeline**: bytes are written for a file exactly when the lines that its conditional
  groups keep, with those of the files it includes, can be read as a script of the LSL
  grammar that keeps every rule of the language, provided that no function with more than 16
  parameters is called; decoding those bytes gives that script back.
- **Preprocessor**: on text, lines are told to be directives by what is written on them, of
  the parts of a group exactly the first whose test holds is kept, and a line of literals,
  words, calls and comments becomes what its macros make of it.  The flat stack of
  conditional frames keeps exactly the lines that a recursive, tree-shaped reading of the
  groups keeps, for every nesting up to 31 and for no deeper nesting; every token of every
  source line is reported on line `k`, or on `k + 1` once an `#include` of that file has been
  followed.
- **Lexer and parser**: a text of words, numerals, literals, marks and comments that may touch
  lexes to their tokens, lexing undoes rendering, parsing undoes printing, no shorter token
  sequence than the printed one means the same tree, and the parser reports an error exactly
  when no derivation of a declarative grammar exists.
- **Checker**: it reports an error exactly when no annotation of the tree satisfies a
  declarative judgement, and its annotation is the only one that does.  The judgement of an
  argument from the 17th on rests on what lies in memory behind the 16 stored parameter
  types; exactly when a script is accepted whatever lies there is proved too.
- **Folder**: it keeps types and values, is exact on numbers, and folding twice is folding
  once.
- **Symbol table**: the chained hash buckets behave as a stack of finite maps whatever the
  hash function is.
- **Emitter**: the string pool is complete before the second pass starts and in the order of
  the source text, and the format is a prefix code that can be decoded exactly when every
  count and string fits its field.

## How it is built

Each phase has a specification made of functions (`ParseSpec`, `CheckSpec`, `Fold`,
`LexSpec`, `PreprocSpec` with `Conditionals`, `ExpandSpec` and `IfEval`, `Slbc`), methods or
classes with the program's own loops and fields that are proved equal to it (`Parser.Parse`,
`Sem.Checker`, `SymTab.Table`, `Folder.FoldTree`, `Lexer.Lex`, `Preproc.Preprocessor`,
`Expander.ExpandLine`, `Emitter.Emit`, `EditDistance.Levenshtein`), and an independent
definition of what the phase is for, with theorems that connect the two:

| phase | independent definition | main theorem |
|---|---|---|
| directives | `DirectiveText.Written`, a printer with every keyword written out, and the parts of a group in `GroupText` | `DirectiveText.ClassifyWritten`, `GroupText.GroupDecides`, `FileText.IfdefKeeps` |
| conditionals and includes | `Conditionals.Meaning` and `PreprocSpec.FileMeaning`, recursions over trees of groups | `PreprocSpec.FileMeans`, `CondRefines.DepthLimit`, `FileText.IncludeDoes` |
| `#if` expressions | `IfLanguage.IsText` and `IfLanguage.AnyValue`, over trees of texts; `IfEval.Denote` and the printer `IfEval.Print`; `IfNumbers.Worth`, digit by digit | `IfExact.ReadsExactlyTexts`, `IfEval.EqualityIgnored`, `IfNumbers.NameDecides`, `IfNumbers.NumberDecides` |
| macros | segments of a line and their images, `ExpandSpec`; `LineText.LineBecomes`, over lines as they are written | `LineText.LineExpands`, `LineText.MacroBecomesBody`, `ExpandSpec.SegmentsPartition`, `ExpandSpec.BodyNotRescanned`, `ExpandSpec.InvocationAccepted`, `Renaming.RenamingKeepsMeaning` |
| line numbers | `LexLines.LineOf`, line by line over the text | `LexLines.TokensCounted`, `LexLines.MainFileLine` |
| lexer | `LexLanguage.TextOf` and `LexLanguage.TokensOf`, over the parts of a text; `LexRender.RenderTokens` | `LexLanguage.TextLexed`, `LexRender.LexUndoesRender` |
| parser | the grammar `Grammar.DerivesScript`, with its own rules of operators, and the printer `ScriptPrinter.PrintScript` | `ParseComplete.ParserExact`, `PrintExact.ParseUndoesPrint`, `Precedence.ThreeOperands` |
| checker | the judgement `Judgement.WellScript` over `Typing.Typed`; `Declared`, which says by position what names, scopes, labels and tables come to | `CheckProgram.ScriptAccepted`, `LongScripts.DecidedExactly` |
| constants | `Constants.IsConstantExpr`, over unfolded trees | `ConstantsExact.ConstantExact`, `Initialisers.VariableRejected` |
| folder | the strict evaluator `Eval.EvalExpr` with the integers of `Words` | `FoldMeaning.FoldKept`, `FoldExact.NumericExact`, `FoldBits.BitByBit` |
| emitter | the decoder `Slbc.ReadFile`, and the order of the printed tokens | `SlbcExact.RoundTripExactly`, `PoolOrder.PoolInSourceOrder` |
| edit distance | `EditDistance.Apply`, edit scripts and their cost | `EditDistance.DistanceIsMinimum` |

The grammar indexes derivations by token positions, the judgement speaks of annotated trees
(an annotated tree is its own derivation), and the evaluator has no knowledge of the folder,
not even of its truth values, shifts and bit operations; none of them mentions errors, error
types or the order in which things are checked.  Where a phase and its independent definition
use one function (character classes, searches in tables, the names and labels of a script),
that function is itself said in other words: `Chars.ClassesSpelled`, `Declared`.

Some facts that hold of the code and are worth knowing:

- The conditional stack has 32 places but stops pushing at 31, so the 32nd nested group is
  not seen, and its `#endif` closes its parent (`DepthLimit`).
- The opening comment of `src/preproc.c` says that line numbers do not shift inside a file.
  After a followed `#include` they are one too high (`LineNumbers`, `MainFileLine`).
- The same comment says that only `defined(NAME)`, `1` and `0` can follow `#if`.  The code
  accepts integers in any base of the C library, macro names, `!`, `&&`, `||` and
  parentheses, and ignores what follows the longest expression it can read, an `==` with all
  that comes after it (`EqualityIgnored`, `EqualityExample`).  Closing parentheses at the end
  may be missing; with that, the texts it reads whole are those of a small language, and no
  others (`ReadsExactlyTexts`).
- A symbol has room for 16 parameter types.  A function may have more parameters, and a call
  compares its later arguments with whatever follows in memory.  A script that keeps the
  rules and calls a function of 17 parameters can so be rejected (`SeventeenParameters`);
  with 16 it cannot (`SixteenParameters`).  The condition for any script is
  `AcceptedWhateverMemory`, and `DecidedByRules` for one that calls no such function.
- A macro without parameters cannot be invoked as `F()`, which counts one empty argument;
  but `F(` without the closing parenthesis is replaced by its body, and the rest of the line
  is lost (`EmptyCallIsError`, `EmptyCallExample`).
- The lexer keeps the names of 256 files; markers of further ones leave the tokens on the
  file before (`FilesFollowed`).
- `<1, 1 / 0, 3>.x` folds to `1.0` although it divides by zero (`MemberDropsFailure`,
  `MemberMakesConstant`): a selection keeps its outcome exactly when what it selects from has
  a value (`SelectionKeptExactly`); with numeric components, exactly when the folded vector is
  all literals (`NumericSelectionExact`).
- The folder replaces an identifier named like a built-in constant even where a global
  hides the constant (`ShadowedGlobalFolded`); the outcome is kept exactly when the global
  holds the value of the constant (`NamedLikeConstant`).
- The folder's return value is 1 for every list and rotation (`FlagIsNotConstant`).
- The components of a rotation are not checked: `<"a", 0, 0, 0>` is accepted and has no value
  (`RotationOfText`).  A constant expression that is accepted has a value of its annotated
  type exactly when it does not divide by zero and every component of every rotation in it is
  annotated with a numeric type (`CheckedTypeSoundExactly`).
- What a global is initialised with must be constant after folding, and the test for that
  only looks at names: in `integer TRUE = 5; integer b = ++TRUE;` the increment folds to a
  constant (`IncrementOfConstantName`).  Where no variable has such a name and no component
  is selected, a constant holds no variable, call, assignment or increment
  (`ConstantsAreEffectless`).
- In `#if`, a macro is worth the number its body starts with, and 0 if it starts with none;
  a name of more than 127 characters is cut and ends the expression (`LeadingNumber`,
  `NoLeadingNumber`, `LongNameStops`).
- `#pragma` and `#line` lines come out even in dead regions (`LineDoes`).
- A comment in `src/parser.c` says that `>=` can close a vector literal.  The code only accepts
  `>`, and so do the grammar and the parser here.
- Parameter counts are written as one byte; 256 parameters cannot be read back
  (`TooManyParameters`).
- The opening comment of `src/emit.c` gives version 1 and once leaves out statement lines;
  the code writes version 2 with a line in every statement, and the model follows the code.

## Model

| member | source | states |
|---|---|---|
| Pipeline.Run | src/main.c:229-265 | the phases run one after the other give the bytes that `Compile` gives, and none if any phase counted an error |
| Pipeline.CompileExact | src/main.c:229-265 | for a text whose script calls no function with more than 16 parameters, bytes are written if and only if its tokens derive some script of the grammar that has an annotation keeping the rules of the language; they are the file of that annotation with its initialisers folded |
| Pipeline.CompileWhateverMemory | src/main.c:229-265 | for any text, bytes are written whatever lies behind the stored parameter types if and only if the text has such a reading in which no argument is judged by memory |
| Pipeline.CompileDecodes | src/main.c:229-265 | within the field widths, decoding the written bytes followed by anything gives that script and leaves what followed |
| Pipeline.PrintedCompiles | src/main.c:229-265 | a writable script in which no function with more than 16 parameters is called, printed to tokens and rendered as text, compiles if and only if it keeps the rules |
| Pipeline.BuildFile | src/main.c:165-265 | preprocessing and compiling a file, run step by step, gives what `Build` gives |
| Pipeline.BuildExact | src/main.c:165-265 | if a file and those it includes are made of well-nested groups that nest at most 31 deep, their markers fit their buffer, and no function with more than 16 parameters is called, then the file is compiled if and only if the lines that the groups keep hold no error and are readable as a script that keeps the rules, and then to the file of that script |
| Emitter.Emit.PoolIntern | src/emit.c:71-81 | returns the index of the string in the pool, appending it only if it is not there |
| Emitter.Emit.Collect | src/emit.c:113-169 | pass 1 interns exactly the strings of the script, in the order of the tree |
| Emitter.Emit.EmitExpr | src/emit.c:172-225 | pass 2 leaves the pool as it is and appends the bytes of the expression under that pool |
| Emitter.Emit.EmitStmt | src/emit.c:227-275 | the same for statements, with their line, counts and absent parts |
| Emitter.Emit.EmitBytecode | src/emit.c:278-378 | the pool ends as the first occurrences of the script's strings, and the output is the file of the script: the count in the header is final |
| SlbcProofs.InternAllFirstOccurrences | src/emit.c:71-81 | interning any list of names gives each of them once, in first-occurrence order, and nothing else |
| SlbcProofs.ReadExprBytes | src/emit.c:172-225 | decoding the bytes of an expression anywhere in a file gives the expression, annotations included, and stops just after it |
| SlbcProofs.ReadStmtBytes | src/emit.c:227-275 | the same for statements, up to what the file does not keep |
| SlbcProofs.ReadFileBytes | src/emit.c:278-378 | a script that fits is read back from its file followed by anything |
| SlbcExact.ReadBackFits | src/emit.c:278-378 | conversely, a script that comes back unchanged fits every field |
| SlbcExact.RoundTripExactly | src/emit.c:278-378 | the file of a script decodes to its target flag, its pool and the erased script, leaving any suffix, if and only if every count, line, member letter and string fits its field |
| SlbcExact.PrefixCode | src/emit.c:278-378 | no file is a proper prefix of another, and equal files hold equal erased scripts |
| SlbcExact.TooManyParameters | src/emit.c:345-349 | a function with 256 parameters is not read back |
| PoolOrder.PoolInSourceOrder | src/emit.c:113-169 | the pool of a script is what its source text names, identifiers and strings in their order, `default` and `print` among them, each once; component letters are not |
| PoolOrder.HeaderSpelled | src/emit.c:315-317 | the bytes of the header, one by one |
| PoolOrder.ByteOrder | src/emit.c:86-95 | byte `k` of a number is the lowest of what is left after dropping `k` bytes |
| Parser.Parse.Step | src/parser.c:32-37 | the two-token window moves by one and stays put at the end |
| Parser.Parse.ParseAssign | src/parser.c:462-473 | right-associative assignment over the binary levels |
| Parser.Parse.ParseBinary | src/parser.c:344-451 | each of the ten left-associative levels, as one loop with that level's operators |
| Parser.Parse.ParseVectorOrRotation | src/parser.c:173-207 | three or four components, each read at the shift level so that `>` can only close the literal, and the errors of what is missing |
| Parser.Parse.ParsePostfix | src/parser.c:233-297 | calls, member selections and postfix operators in a row |
| Parser.Parse.ParseStatement | src/parser.c:654-690 | a statement of any kind, and at least one token consumed unless at the end of file |
| Parser.Parse.ParseWholeScript | src/parser.c:795-916 | the whole script with the error recovery of every level, ending on any token sequence |
| ParseSound.LevelSound | src/parser.c:318-473 | an expression parsed without error at a level is derived at that level from exactly the tokens consumed |
| ParseSound.ParseStmtSound | src/parser.c:479-690 | the same for statements, where an open `if` is never followed by an `else` |
| ParseSound.ScriptSound | src/parser.c:795-916 | a script parsed without error is derived from the whole token sequence: every recovery counts an error |
| ParseComplete.LevelComplete | src/parser.c:318-473 | an expression derived at a level, before a token that cannot continue it, is what the parser returns, without error |
| ParseComplete.StmtComplete | src/parser.c:479-690 | the same for statements |
| ParseComplete.ParserExact | src/parser.c:795-916 | the parser returns a script without error and with no token left if and only if the tokens derive it |
| ParseComplete.ErrorExactly | src/parser.c:795-916 | an error is counted if and only if no script derives the tokens |
| ParseComplete.GrammarUnambiguous | src/parser.c:118-916 | no token sequence derives two scripts |
| Precedence.ThreeOperands | src/parser.c:344-451 | of two binary operators in a row between operands the second takes the middle one exactly if it stands in a tighter class of the ten that are written out, from the logical or to the products; all other pairs group to the left |
| Precedence.AssignedRight | src/parser.c:462-473 | two assignments in a row group to the right |
| Printer.PrintExprDerives | src/parser.c:118-475 | the printed tokens of an expression derive it at every level, vector components included |
| ShortestPrint.PrintIsShortest | src/parser.c:118-475 | whatever tokens derive an expression at a level are at least as many as those printed: no parentheses are wasted, and leaving a pair out loses or changes the tree |
| PrintExact.ExprRoundTrip | src/parser.c:118-475 | parsing those tokens in any context returns the expression and stops at the token that follows |
| PrintExact.StmtRoundTrip | src/parser.c:479-690 | the same for a statement, before any token but an `else` that it would take |
| PrintExact.ParseUndoesPrint | src/parser.c:795-916 | parsing the printed tokens of a script returns the script if and only if source text can produce it |
| ParsedProper.ParsedScriptProper | src/parser.c:795-916 | whatever the tokens are, the tree returned has operators only where the checker expects them and no annotations |
| SymTab.ScopeNode.Add | src/symtab.c:70-88 | the symbol goes into the bucket of its hash and into the list, once each |
| SymTab.ScopeNode.BucketLookup | src/symtab.c:60-68 | walking the chain of a bucket finds what is stored of the symbol in the map of the scope |
| SymTab.Table.Push | src/symtab.c:50-52 | the stack of maps gains an empty one |
| SymTab.Table.Pop | src/symtab.c:53-58 | the stack loses its last map, never its first |
| SymTab.Table.Define | src/symtab.c:70-88 | binds the name in the last map unless it is bound there, and returns what is stored of its binding: the number of parameters and the types of the first 16 |
| SymTab.Table.Lookup | src/symtab.c:98-106 | what is stored of the innermost binding, whatever the hash function |
| SymTab.LookupDeclared | src/symtab.c:70-106 | a definition changes the meaning of its own name only, and only if the scope has none |
| SymTab.ScopeRestored | src/symtab.c:50-106 | push, any definitions, pop: the stack of maps is the one before |
| Declared.InnermostFound | src/symtab.c:98-106 | a name means what the innermost scope that binds it binds it to, and nothing if none does |
| Declared.BindingsFound | src/symtab.c:50-106 | a definition is found by its name and leaves all other names, and outer scopes, as they are; a new scope binds nothing |
| CheckExact.BinarySound | src/types.c:91-148 | a binary node accepted with a type is one the declarative rules give that type |
| CheckExact.BinaryComplete | src/types.c:91-148 | a binary node that the rules give a type is accepted with that type |
| CheckExact.AssignExact | src/sem.c:500-543 | an assignment is accepted if and only if its target is assignable and the result converts to it |
| CheckExact.CallExact | src/sem.c:210-296 | a call is accepted with a type if and only if the rules for user functions, overloads by arity, the target and unknown `ll` names give that type, where an argument from the 17th on is compared with what memory holds |
| CheckExact.CheckSound | src/sem.c:298-546 | an expression checked without error is well typed, and never left with the error type |
| CheckExact.CheckComplete | src/sem.c:298-546 | any well-typed annotation of a tree is the one the checker finds, without error |
| CheckExact.ExprAccepted | src/sem.c:298-546 | no error is counted if and only if some annotation is well typed |
| Declared.IdentifierTyped | src/sem.c:334-369 | a name is right exactly where it means a global, a local or a parameter, which may be assigned to, or, if nothing of that name is declared, the first built-in constant of that name, which may not |
| Declared.AssignableExactly | src/sem.c:109-114 | a well-typed expression may be assigned to if and only if it is a declared name or components of one |
| Declared.OverloadChosen | src/sem.c:245-246 | a call is checked against the first built-in of its name and number of arguments, or, only if there is none of that number, the first of its name |
| CheckBodies.StmtSound | src/sem.c:556-700 | a statement checked without error keeps the rules and leaves the scopes the rules say |
| CheckBodies.StmtComplete | src/sem.c:556-700 | a statement with an annotation that keeps the rules is checked without error, giving that annotation |
| CheckBodies.DuplicatesExact | src/sem.c:702-737 | a duplicate label is reported if and only if some label occurs twice |
| CheckBodies.MissingExact | src/sem.c:702-737 | a missing label is reported if and only if some jump has no label in its body |
| Declared.JumpsLand | src/sem.c:702-737 | the rules for labels say that each occurs once in the body and that each jump has one, at any nesting |
| Declared.DeclarationSeen | src/sem.c:592-624 | a local variable is seen from its declaration on, by its initialiser too, and its name must be new in the innermost scope |
| CheckProgram.EventExact | src/sem.c:869-933 | an event is accepted if and only if it is a known one of that arity with matching parameter types |
| Declared.FuncJudged | src/sem.c:846-867 | the body of a function sees the top level, its parameters, and a scope of its own; parameters differ and jumps land |
| Declared.ParamsDeclared | src/sem.c:851-861 | a body sees each parameter as a variable of its type, and no other name in that scope |
| Declared.ExpressionJudged | src/sem.c:560 | an expression statement keeps the rules exactly if its expression is well typed in the scopes there |
| Declared.EventJudged | src/sem.c:869-933 | so does that of an event, whose parameters have the types of the first built-in event of its name and arity |
| Declared.EventsDistinct | src/sem.c:937-946 | the rule for a state says that no two of its events have the same name |
| CheckProgram.DeclarationsExact | src/sem.c:741-844 | declaring globals, functions and states is without error if and only if all names differ and a default state exists |
| Declared.TopDeclared | src/sem.c:741-844 | no top-level name is declared twice in any way; each global, function and state is then seen as what it is declared as, and nothing else is |
| CheckProgram.ScriptSound | src/sem.c:953-986 | a script checked without error has an annotation that is well formed for this memory |
| CheckProgram.ScriptComplete | src/sem.c:953-986 | a script with an annotation that is well formed for this memory is checked without error |
| CheckProgram.ScriptAccepted | src/sem.c:953-986 | with any given memory behind the stored parameter types, no error is counted if and only if the script has an annotation that is well formed for it, which is then unique and is the output with its initialisers folded |
| ConstantsExact.ScalarExact | src/fold.c:119-329 | a well-typed expression folds to a literal if and only if the declared constants and operators give it one |
| ConstantsExact.ConstantExact | src/fold.c:37-72 | folded, a well-typed expression passes for a constant if and only if it is one of the language before folding: literals and built-in constants under operators, casts, selections and literals of vectors, rotations and lists |
| Initialisers.InitialisersConstant | src/sem.c:766-797 | in an accepted script every initialiser is such a constant |
| Initialisers.VariableRejected | src/sem.c:777-797 | no script is accepted in which a variable that is not named like a constant, a call, an assignment or a postfix increment initialises a global |
| Initialisers.GlobalOfGlobalRejected | src/fold.c:57-60 | `integer a = 1; integer b = a;` is rejected |
| Initialisers.ConstantsAreEffectless | src/fold.c:37-72 | where no variable is named like a constant and no component is selected, a constant holds no variable, call, assignment or increment |
| Initialisers.IncrementOfConstantName | src/fold.c:252-266 | `++TRUE` passes for a constant |
| LongScripts.DecidedByRules | src/sem.c:953-986 | if no function with more than 16 parameters is called, no error is counted if and only if the script keeps the rules of the language, whatever memory holds |
| LongScripts.DecidedExactly | src/lsl.h:367 | a script is decided by the rules of the language whatever memory holds if and only if, in every annotation that is right up to what memory judges, memory judges nothing |
| LongCalls.AcceptedWhateverMemory | src/sem.c:224-238 | a script is accepted whatever memory holds if and only if it keeps the rules in an annotation in which no argument is judged by memory |
| LongScripts.SixteenParameters | src/sem.c:812-815 | a script that keeps the rules and calls a function of `n` parameters is accepted whatever memory holds if and only if `n` is at most 16 |
| LongScripts.SeventeenParameters | src/sem.c:224-238 | with 17 parameters it keeps the rules and some memory has it rejected |
| Sem.Checker.CheckExpr | src/sem.c:298-546 | the checker's recursion adds the errors and gives the annotations of the specification, leaving the table alone |
| Sem.Checker.CheckUserArgs | src/sem.c:226-238 | each argument is compared with the stored type of its parameter, or with memory from the 17th on; the errors are those of the specification on the declared types |
| Sem.Checker.CheckBlock | src/sem.c:550-554 | a block leaves the table as it found it, whatever it declares |
| Sem.Checker.ResolveLabelsAndJumps | src/sem.c:702-737 | the pending labels and jumps are compared, reported and cleared |
| Sem.Checker.CheckFunctionBody | src/sem.c:846-867 | a function body is checked in a scope of its parameters, and the table is balanced |
| Sem.Checker.CheckEvent | src/sem.c:869-933 | the same for events, with their signature |
| Sem.SemCheck | src/sem.c:953-986 | the whole check over the hash-chained table, for every hash function, is the specification |
| Fold.TruncatingDivision | src/fold.c:140-141 | quotient and remainder recompose the dividend, with C's signs and bounds |
| FoldMeaning.QuotientMeaning | src/fold.c:140-141 | truncating division divides magnitudes and combines signs |
| FoldMeaning.IntegerMeaning | src/fold.c:119-178 | every integer operator the folder applies is the evaluator's, and it refuses exactly division by zero |
| FoldMeaning.RelationsFold | src/fold.c:147-154 | of two integer literals each comparison and connective folds to 1 where it holds and to 0 where it does not, and `!` to 1 of 0 only |
| FoldMeaning.RelationTreesFold | src/fold.c:245-329 | so do the trees of them, however they are annotated |
| FoldBits.BitByBit | src/fold.c:142-144 | every bit of the bitwise and, or and exclusive or is that of the bits in its place |
| FoldBits.DoubledProduct | src/fold.c:145 | a shift to the left by `k` is `k` doublings |
| FoldBits.HalvedQuotient | src/fold.c:146 | a shift to the right is as many halvings, rounding down |
| FoldMeaning.FoldKept | src/fold.c:245-329 | folding a well-typed expression keeps its type and its value if it has one, and every outcome where each selection that folds selects from something that has a value |
| FoldMeaning.SelectionKeptExactly | src/fold.c:301-320 | a selection that folds keeps its outcome if and only if what it selects from has a value |
| FoldExact.NumericSelectionExact | src/fold.c:301-320 | a folded selection from a vector of numeric expressions keeps its outcome if and only if every component of the folded vector is a literal |
| FoldMeaning.NamedLikeConstant | src/fold.c:252-266 | an identifier named like a constant keeps its outcome if and only if it is the constant or a variable with the value of the constant |
| FoldStable.FoldTwice | src/fold.c:245-329 | folding is idempotent |
| FoldStable.FoldConstantExactly | src/fold.c:245-329 | the folded tree is constant if and only if all but the components that folded selections drop is constant |
| FoldStable.FoldConstant | src/fold.c:37-72 | so folding keeps constant expressions constant, and without component selection makes no others constant |
| FoldStable.MemberMakesConstant | src/fold.c:301-320 | with component selection it can: a call beside the selected component disappears |
| FoldExact.CheckedTypeSound | src/sem.c:298-546 | a constant expression the checker accepts evaluates to a value of the annotated type or divides by zero |
| FoldExact.NumericExact | src/fold.c:119-243 | a numeric expression folds to a literal if and only if it does not divide by zero, and then to its value |
| FoldExact.MemberDropsFailure | src/fold.c:301-320 | a vector component folds although the vector divides by zero |
| FoldExact.ShadowedGlobalFolded | src/fold.c:252-266 | a global named like a constant folds to the constant |
| FoldExact.TypeSoundExactly | src/sem.c:323-329 | a well-typed constant expression has a value of its type if and only if it does not divide by zero and every component of every rotation in it has a numeric type |
| FoldExact.CheckedTypeSoundExactly | src/sem.c:298-546 | the same of an expression the checker accepts, by the types it writes into the tree |
| FoldExact.RotationOfText | src/sem.c:323-329 | a rotation of strings is accepted and has no value |
| Folder.FoldTree | src/fold.c:245-329 | the in-place recursion gives the folded tree, and its return value says exactly `Flagged` |
| Folder.FlagIsNotConstant | src/fold.c:273-281 | a flagged tree need not be constant |
| Macros.AddIsUpdate | src/preproc.c:94-113 | a definition changes one name and keeps names unique |
| Macros.RemoveIsErase | src/preproc.c:512-529 | an `#undef` removes one name |
| IfEval.EvalUndoesPrint | src/preproc.c:372-413 | evaluating the printed text of any expression, with numerals of any base, gives its denotation and leaves the cursor at the end |
| IfEval.EqualityIgnored | src/preproc.c:376-413 | the same before any text that cannot continue the expression, an `==` for one: the denotation is given and the cursor stays at the first thing there that is not blank |
| IfExact.ReadsExactlyTexts | src/preproc.c:376-413 | any text is read to its end if and only if it is a text of the language less any closing parentheses at its end, and then has the value of its tree |
| IfNumbers.LeadingNumber | src/preproc.c:376-402 | a macro body that starts with white space, a sign and digits in any of three notations is worth that number, or the 64-bit integer nearest to it |
| IfNumbers.NoLeadingNumber | src/preproc.c:376-402 | one that does not is worth 0 |
| IfNumbers.NumberDecides | src/preproc.c:380 | a number by itself is worth what its digits are worth in their places |
| IfNumbers.NameDecides | src/preproc.c:399-402 | a name by itself is worth what the body of its macro starts with, and 0 if it is no macro or one with parameters |
| IfNumbers.LongNameStops | src/preproc.c:381-384 | a name of more than 127 characters is cut and ends the expression |
| Preproc.Cursor.EvalExpr | src/preproc.c:376-413 | the three mutually recursive readers on a moving cursor compute the specification and never move back |
| ExpandSpec.SegmentsPartition | src/preproc.c:178-283 | the segments of a line are the line: nothing is lost or read twice |
| ExpandSpec.ExpandIdentity | src/preproc.c:178-283 | a line in which no word outside literals and comments names a macro is unchanged |
| ExpandSpec.BodyNotRescanned | src/preproc.c:178-283 | two tables that agree on the words that the segments of a line name expand it alike: bodies and arguments, of either kind of macro, are not looked at again |
| ExpandSpec.ArgsJoin | src/preproc.c:207-235 | the arguments are the text up to the closing parenthesis, cut at top-level commas |
| LineText.LineExpands | src/preproc.c:178-283 | a line of characters, string literals, words and calls, with a comment or an open literal at its end, becomes the same with each object-like macro replaced by its body and each call by the body filled with its arguments |
| LineText.MacroBecomesBody | src/preproc.c:202-205 | in particular an object-like macro becomes its body and nothing else of the line changes |
| LineText.SubstituteFills | src/preproc.c:236-259 | a body is filled word by word: a parameter is its argument, all else is itself |
| ExpandSpec.SubstituteIdentity | src/preproc.c:236-259 | nothing but the parameters is replaced in a body |
| Renaming.RenamingKeepsMeaning | src/preproc.c:236-259 | parameters are bound names: renaming them in a body to names that mean nothing else in it, and substituting for the new names, is substituting for the old ones; so substitution is simultaneous and never looks at inserted text |
| Renaming.SubstituteSwaps | src/preproc.c:236-259 | parameters are replaced at once: exchanging the parameters of any body in any way is undone by exchanging them back |
| ExpandSpec.InvocationAccepted | src/preproc.c:214-274 | an invocation becomes the body with its arguments if and only if the commas outside inner parentheses, one more if it closes, are as many as the parameters; otherwise it is one error and disappears; unclosed, it takes the rest of the line |
| ExpandSpec.EmptyCallIsError | src/preproc.c:218-274 | an invocation of a macro without parameters is an error if and only if it closes or has such a comma; otherwise it becomes the body and swallows the rest of the line |
| Expander.ExpandLine | src/preproc.c:178-283 | the scanning loop gives the concatenation of the images of the segments, and the errors of all |
| DirectiveText.ClassifyWritten | src/preproc.c:442-592 | a line written with any blanks, any of the twelve keywords or another word, and its argument is read as the directive of that keyword; a line that does not start with `#` as text |
| DirectiveText.DefineRead | src/preproc.c:477-505 | a definition of a macro is read back: name, parameters with blanks and with or without commas, and body, closed or broken off |
| GroupText.LineDoes | src/preproc.c:477-592 | what each line but a conditional or an include does to macros, output and errors, live and dead |
| GroupText.GroupDecides | src/preproc.c:530-561 | of the parts of a group in a live region exactly the first whose test holds is processed, as it would be by itself, and all its other lines come out blank |
| FileText.LinesOfText | src/preproc.c:433-441 | lines joined by newlines are cut into just those lines |
| FileText.GroupFile | src/preproc.c:530-561 | a file with one group around lines of text keeps them, expanded, exactly if its test holds |
| FileText.IfdefKeeps | src/preproc.c:530-541 | a file of `#ifdef`, lines and `#endif` keeps the lines exactly if the macro is defined, one of `#ifndef` exactly if it is not |
| FileText.IncludeDoes | src/preproc.c:453-475 | a live include of a quoted or bracketed path puts the lines of the file it leads to between markers, or is an error if there is none or 32 files are open |
| FileText.IncludeNot | src/preproc.c:453-475 | a dead one does nothing, and one whose path does not close is an error |
| Preproc.CondStack.IsActive | src/preproc.c:312-315 | true if and only if every frame is active |
| Preproc.CondStack.Push | src/preproc.c:317-323 | a frame that remembers whether its parent was active; nothing at 31 frames |
| Preproc.CondStack.Else | src/preproc.c:324-329 | the top frame becomes active if no branch was |
| Preproc.CondStack.Elif | src/preproc.c:330-336 | the top frame becomes active if no branch was and the condition holds |
| CondRefines.StepKeeps | src/preproc.c:312-339 | every line, well nested or not, keeps each frame's parent flag equal to the activity of the frames below |
| CondRefines.ActiveIsTop | src/preproc.c:312-315 | so the top frame alone decides |
| CondRefines.ItemsRefine | src/preproc.c:432-594 | from any stack with room, the lines of any well-nested groups, macros and includes threaded through, do to the stack machine what the tree semantics says and leave the stack as it was |
| CondRefines.DepthLimit | src/preproc.c:317-323 | groups nested `d` deep are handled faithfully, whatever they hold, if and only if `d` is at most 31 |
| PreprocSpec.FileMeans | src/preproc.c:415-599 | files of well-nested groups that include each other in any way, cyclic or not, come out as the groups mean, markers and the missing and too deep files included, and leave the stack as it was |
| PreprocSpec.FileInOrder | src/preproc.c:415-599 | whatever the files hold, includes and unbalanced groups too, the stack stays in order and within its array, and macro names stay unique |
| Preproc.Preprocessor.ProcessFile | src/preproc.c:415-599 | the loop over a file, with includes to depth 32, is the specification, and ends on cyclic includes |
| LineFidelity.LineNumbers | src/preproc.c:415-599 | before line `k` the output leads to number `k`, or `k + 1` once an include of the file was followed, and to the right file |
| LineFidelity.MarkerRead | src/lexer.c:50-99 | a marker whose file name fits the lexer's buffer is the one the lexer reads: number, file and extent |
| MarkerText.MarkerSpelled | src/lexer.c:50-99 | a line that starts with `#`, `line` and blanks is read as the number written there, the file between quotes if one is written and its name is shorter than 1024, and ends with the line |
| MarkerText.NoMarkerSpelled | src/lexer.c:54-58 | a line with another word after its `#` is no marker |
| MarkerText.RenderSpelled | src/preproc.c:362-364 | a marker is written as `#line`, its number in decimal without zeros in front, and its file between quotes; a line of code as itself |
| LineFidelity.FilesFollowed | src/lexer.c:72-97 | the lexer follows every marker to its file if and only if they name at most 256 different files |
| LexLines.TokensCounted | src/lexer.c:50-130 | over any text in which no comment or string runs over a marker, every token is reported on the line it starts on, as the markers number the lines |
| LexLines.SourceLine | src/preproc.c:415-599 | a token from a given line of any file of a run is reported on that line, or on the next after a followed include |
| LexLines.MainFileLine | src/preproc.c:415-599 | the same from a file's text through preprocessor and lexer |
| LexRender.StringRead | src/lexer.c:299-366 | an escaped string is read back, up to and including its quote |
| LexRender.LexUndoesRender | src/lexer.c:391-480 | tokens written with white space between them lex back to themselves, on their lines, without error |
| LexLanguage.TextLexed | src/lexer.c:101-480 | a text of parts that may touch (white space, comments, words, keywords, numerals with exponents and suffixes, string literals with any escapes, marks, stray characters), with a literal or comment that may stay open at its end, lexes to the tokens of the parts on their lines, with an error for each stray character and open end |
| Chars.ClassesSpelled | src/preproc.c:128-129 | which characters start and continue a name, and which are blank |
| Chars.DigitsSpelled | src/lexer.c:241-246 | a digit is worth its place among the sixteen, capital or not |
| Lexer.Lex.TakeString | src/lexer.c:299-366 | the string loop, with its doubling buffer, gives the string of the specification; no write is out of bounds |
| Lexer.Lex.SkipSpace | src/lexer.c:101-130 | white space, comments and markers are passed, with line and errors kept |
| Lexer.LexAll | src/lexer.c:391-480 | the token loop gives the tokens of the specification on any text |
| EditDistance.DistanceIsMinimum | src/util.c:69-102 | the distance is the least cost of any script of edits between the case-folded strings |
| EditDistance.LowerSpelled | src/util.c:69-102 | capitals are folded to their small letters and nothing else changes |
| EditDistance.LevAtLeastLengths | src/util.c:74 | strings whose lengths differ by more than the cutoff are further apart than it |
| EditDistance.RowsStayAbove | src/util.c:93-96 | once a whole row is above the cutoff, every later row is |
| EditDistance.Levenshtein | src/util.c:69-102 | the two-row loop returns the distance if it is within a positive cutoff and more than the cutoff otherwise; the distance itself without a cutoff |
| EditDistance.DidYouMean | src/diag.c:174-189 | the first of the nearest candidates within the limit, and nothing if and only if there is none |

## Left out

- FileMeans: asks that each file is well nested by itself; groups that start in one file and end in another, and unbalanced ones, are covered by `FileInOrder`, `LineNumbers` and the methods only.
- CompileExact: the error for a source that looks too large for the memory budget, a guess from its text, is not modelled; nor is the second chance to check a script with fewer than five syntax errors, which can only add errors.
- ScriptAccepted: of what is reported only errors are counted; warnings, `-Werror`, `-Wall` and the marks on used symbols are not modelled.
- CallExact: what lies in memory behind the stored parameter types is a function of the name of the function and the position of the argument, the same at every call of a run; whether the read itself is allowed is not modelled.
- CallsFit: is asked of a script before it is checked and so is sufficient only; the exact conditions are `DecidedExactly` and `AcceptedWhateverMemory`.
- ParseTop: counts the parser's errors alone against the limit of errors; in the program the lexer's errors share the counter, so that a text with errors of both kinds can stop the parser earlier; since one lexer error is enough for no bytes to be written, `CompileExact` is not affected.
- ParserExact: of a source location only the line is kept; columns, offsets, ranges and file names of tokens are not, and a statement that starts at the end of the file has line 0.
- ParseWholeScript: the message and hint of each error are not modelled, only that it is counted, and that parsing stops once the limit of errors is reached.
- FoldKept: integers wrap at 64 bits in the folder and in the evaluator alike, where overflow in C is undefined; floating-point operations, conversions and text are arbitrary functions shared by both, of which one fact is used (only the integer 0 converts to zero).
- FoldKept: asks that no variable in the expression is named like a built-in constant; `ShadowedGlobalFolded` and `NamedLikeConstant` show why.  Its condition for failures is exact at each selection, not for a whole expression, where a second failure can hide a lost one.
- LexUndoesRender: asks that a float is written as a numeral that the C library reads back, that strings hold no NUL and that lines do not decrease from token to token.
- TokensCounted: asks that no block comment and no string literal runs over the start of a marker, where the lexer does not see it.
- CleanLine: asks that a marker is shorter than 512 characters, and with it `MainFileLine` and `BuildExact`; the program formats it into a buffer of that size and copies past its end if it is longer, which is not modelled.
- TryMarker: a file name of 1024 characters or more is dropped, as in the program; line numbers are not limited to those of a C `int`.
- FilesFollowed: the lexer's table of file names is followed over the markers of one run; it also outlives a run in the program.
- MainFileLine: asks that no output line starts with `#` other than markers, which leaves out `#line` and `#pragma` lines that are passed through and macro bodies that start with `#`.
- EvalUndoesPrint: names are shorter than 128 characters, the size of the program's buffer; longer ones are cut in the model as in the program.
- RoundTripExactly: an absent name is written as the empty one, and a line that is not positive as 0; what the file keeps is `SlbcProofs.Erase`.
- Emit: an absent expression in the place of a present one (tag 255) is not modelled, since no parsed tree has one.
- CondStack: the frames are an array as in the program; a line of the preprocessor is classified by a function, `Directives.Classify`, not by a moving cursor.
- Table: the links between symbols of a bucket never change once made, so chains are values in an array of buckets; freeing memory is not modelled.
- Checker: trees are values and the annotated tree is returned; the program writes annotations into the nodes of the one tree.
- FoldTree: likewise returns the new tree, where the program replaces the node in place.
- Tables: the built-in functions, constants and events are parameters of every theorem; that no entry has the error type is the only thing asked of them.
- Files: reading files, joining paths and searching include directories is a map from paths to texts and a function; texts hold no NUL.
- Strings are sequences of characters, one for each byte; a character of the file is a character below 256 wherever that matters.
- Diagnostic text, carets and colours, the command line, the help text and the listing of built-ins are not part of this model.
