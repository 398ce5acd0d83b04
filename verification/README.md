# FlowArrow in Dafny

A Dafny model of the FlowArrow compiler, with proofs about the passes that must not change what a program means
and the algorithms that run over program graphs. `dafny verify dfyconfig.toml` checks everything.

The model follows the source's own form. Recursive functions of the source are functions here. Loops and objects
with state are methods and classes, and each of them is proved against a function: the lemmas about that
function then hold of the method's result.

| modules | what they model |
|---|---|
| Tokens, Lexer, LexicalGrammar, Rendering, Merging | tokens, the scanner, the texts it accepts, when a text is lexed back to the tokens it was written from, and what is lost when it is not |
| Ast, Parsing, Parser, Grammar, GrammarParsed, WellFormed, RoundTrip, ParserResults, ParserWeights | the syntax tree, the parser as functions and as methods, the grammar as a relation, what the parser accepts, and the round trip on tokens |
| Comments, Formatting, FormatTokens, FormatSafety, FormatAppend, FormatSource, FormatLimits, Annotations, TypeTexts, Formatter | the layout of a module and its comments, its tokens, when a printed module is read back, and the formatter |
| CommentLayout, CommentAccount, KeptComments, PrintedLines, PrintedLevels, LayoutLines, LayoutRead, Idempotence, Misreading | how the formatter collects comments and blank lines from a text, which comments it loses, what it collects from its own output, and formatting twice |
| CanonicalLayout, DeclarationLayout, DeclarationTexts, Spacing | what the layout looks like: arrows below each other, blank lines, broken lines, and the blanks between tokens |
| CommentTokens, SkippedComments, FormatProgram, CommentFaults, StringFaults, FaultsCancel | when formatting preserves a program with its comments, and programs that it does not preserve |
| Dataflow, Monomorphizing, StaticParameters, Expansion, ExpandedRefs, InstanceNames, Monomorphizer, NodeRefs | what a program means, what its expansion should be, and the pass that computes it |
| Types, Typed, GraphRun, GpuLowering, GpuLimits, GpuMeaning, GpuDepth | typed graphs, what they compute with faults, and their lowering to GPU expressions and shader text |
| SsaEmission, SsaRules, SsaForm, SsaTypes, SsaMeaning, SsaCorrect, SsaLimits, LlvmText | single-assignment instructions from typed graphs, their types and declarations |
| GpuReduce | the tree reduction on the device |
| TypeMatching, MatchDemands, MatchUnions, Assignability, TypeDeclarations, DeclaredTypes, TypeResolver, Effects | type matching, assignability, type declarations and effects |
| Checking, CheckersAgree, TypingRules, TypeSafety, AnnotatedGraphs | the two checkers, the rules they decide, what they promise of running a callable, and the typed graph |
| ImportGraph, ImportedNames, ImportResolver | import resolution, and what imported names stand for |
| ByteRuntime | splitting, joining and replacing bytes |
| Framing, Headers, JsonText, JsonGrammar, JsonParser | the wire format of the language server |

## Main results

- **Reading.** A text is lexed and parsed to a module exactly when it spells one by a grammar that is written
  down as a relation, apart from the parser (`LexicalGrammar.LexedIffSpelled`, `GrammarParsed.ParsedIffSpelled`,
  `GrammarParsed.SourceReadIff`).
- **Formatting preserves the program.** The formatted text of a source that parses, comments included, parses to
  the same module, token by token, exactly when no two tokens of an annotation run into each other (no name or
  number directly before a name or digits, no number before a point and digits) and every text that is kept as a
  comment is a comment to the lexer as well (`FormatProgram.FormattingPreservesProgramIff`). The second holds
  for every source in which nothing but comments stands behind a block comment that starts its line
  (`SkippedComments.StandAloneBlocksAreSkipped`). What the source keeps of an annotation, its joined text, is
  the same exactly when it is the text of tokens that stay apart, which is when its printed line is read back
  (`FormatProgram.FormattingPreservesTextsIff`). The proof goes down to characters. Every module the parser can
  return is one the round trip holds for.
- **Formatting is idempotent.** The second run collects comments and blank lines from the text of the first. It
  finds exactly those that were printed, but none behind annotations whose brackets do not match and no comment
  behind a long struct literal (`LayoutRead.PrintedLayout`), so formatting twice is formatting once exactly when
  nothing is kept for such a place (`Idempotence.FormattingIsIdempotentIff`).
- **Comments.** Every comment of a text is kept, as often as it occurs, but for those behind code that begins no
  chain, behind the last chain of a callable, or behind the last declaration
  (`CommentAccount.CommentsAreKeptOrLost`).
- **Formatting is canonical.** The body of a callable is the one text in which every run of chains has its
  arrows below each other and no column too wide (`CanonicalLayout.BodyIsLaidOutIff`), blank lines are where the
  kinds of declarations change and nowhere else between them (`DeclarationLayout.ModuleIsSeparated`), and the
  blanks between the tokens of a chain are determined by the tokens (`Spacing.SpacingIsUnique`).
- **Expansion of static parameters.** It ends on every module, fails exactly on the modules that ask for an
  impossible instance (`StaticParameters.RefusedIff`), generates each needed instance once, and every callable
  means what it meant under an interpreter that passes the parameters as bindings.
- **Two compilers of one graph.** A lowered GPU kernel, and the shader that is written for it, return what the
  callable returns. This is about kernels of reals; of those of 32-bit integers, only ones that hand their input
  on have a lowering with a meaning at all (`GpuMeaning.RefusalIsStatic`). Which callables become kernels is
  stated by rules on the graph (`GpuLimits.LoweredIff`), and so is for which functions are written
  (`SsaRules.EmittedIff`). The instruction text assigns every register once, before its uses and at one type,
  declares exactly what it calls (`SsaTypes.CallsAreDeclared`), and executing it gives the value of every graph
  that is emitted without placeholders and has no match.
- **Reduction.** For every length and every order of the threads the result is the fold with the identity once
  more for every odd round. Minimum and maximum are the plain fold, and a sum is so exactly when the identity is
  zero or the values with the identity fill a power of two; on 32-bit integers, exactly when the odd rounds add
  a multiple of 2^32.
- **Types.** Matching finds the least solution exactly when there is one, for patterns whose unions hold no
  variables (`TypeMatching.MatchSucceedsIff`, `MatchUnions.MatchSucceedsIffSuits`). Assignability is reflexive,
  and steps from a type compose exactly when it is no fault around a fault. Type declarations resolve exactly
  when they are sound and have a representation, in whatever order. Effect inference is the least fixpoint over
  the references outside of inline evaluations (`Effects.LookedUpIs`). The two checkers accept the same
  programs, those that keep the typing rules (`TypingRules.CallableAcceptedIff`), and what they accept returns
  values of its types (`TypeSafety.CallableKeepsTypes`).
- **Imports, bytes and messages.** Imports are emitted once and after what they import, cycles fail, and
  imported names never dangle (`ImportedNames.ImportedNamesAreDeclared`). Splitting and joining undo each other
  exactly for lists that are cut at first occurrences. Messages do not depend on how the stream is cut up,
  printed JSON is read back, and JSON is accepted exactly by its grammar (`JsonGrammar.ReadIffJson`).

## What is assumed

- Formatting: the kept comments are skipped by the lexer, or annotations stay apart and every group of kept
  comments ends where it is written (`CommentTokens.Closes`): it leaves no string or block comment open, and the
  tokens it leaves, if any, are not only commas and parentheses. `FormatProgram.KeptOf` computes the comments of
  a source. Outside of this two faults may undo each other (`FaultsCancel.FaultsMayCancel`). An annotation is
  the list of its tokens here and one string without blanks in the source; `Annotations.ModuleLike` is equality
  of what the source keeps.
- Meaning of expansion (`Expansion.Nameable`): no two instances have the same words, nothing else uses their
  names, and identities and repeat counts contain no static arguments. The first is exactly that no two
  instances share a name (`InstanceNames.NamesDifferIff`), the last exactly that no static argument survives
  (`ExpandedRefs.StaticArgumentsAreGoneIff`).
- GPU lowering (`GpuMeaning.Inlinable`): the nodes that are inlined take one input and have one output, and none
  of them is called like a built-in node. `FirstOutputIsTheValueIff` and `NamesakesAreIgnored` say exactly what
  happens otherwise. Calls are inlined to a depth that is a parameter; the source inlines without bound and so
  needs an acyclic call graph, and then the depth does not matter (`GpuDepth.DepthDoesNotMatter`).
- Reals are exact, and `exp`, `sin`, `cos` and `sqrt` are unknown functions. Called functions and the arithmetic
  of the instruction text are unknown functions too; the theorem holds for all of them.
- Shader semantics are those of the WebGPU Shading Language; `select` (section 17.3) takes the value for false
  first. A kernel of 32-bit integers with a literal outside their range is refused by the device.

## Where the code and its documentation differ

- The formatter's tests ask it to leave the parsed program unchanged. It joins the tokens of an annotation
  without blanks, so it does not where they are lexed differently then. Such annotations need not be nonsense:
  the type parser reads `x.1 . 2` as a type name, and formatting it loses the program
  (`TypeTexts.NumberedTypesAreLost`). Types whose names are words with dots between them are safe
  (`TypeTexts.TypeApartIff`, `TypeTexts.DottedApart`).
- Comments are collected line by line, apart from the lexer. A line that starts with a block comment is kept
  whole, so that a chain behind the comment is written twice (`CommentFaults.ChainsBehindCommentsAreDoubled`);
  and a line of a string may be taken for a comment (`StringFaults.LinesOfStringsAreTakenForComments`).
- The tests also ask formatting to be idempotent. The parser counts parentheses and brackets of annotations
  together, so that `(x]` is one; the formatter counts them apart, and behind it no comment or blank line is
  noticed. Where one is printed there all the same, formatting again takes it out
  (`Misreading.MisreadCommentsAreLost`). A comment behind a chain that starts with a long struct literal is
  printed behind the last line of the literal, where it is not noticed
  (`CommentFaults.LongStructCommentsAreLost`).
- Comments on lines of their own are said to be preserved. Those between the last chain of a callable and its
  brace, and those behind the last declaration, are not (`CommentAccount.CommentsBeforeTheBraceAreLost`,
  `CommentAccount.CommentsAtTheEndAreLost`).
- A sum on the device is not the sequential fold for every identity (`GpuReduce.SumIsFoldIff`,
  `GpuReduce.WrappedSumIsFoldIff`).
- The instruction text calls one helper for every match and leaves its arms out (`SsaLimits.ArmsAreLeftOut`).
- Effects inside inline evaluations are not inferred (`Effects.EffectsAreCompleteIff`,
  `Effects.InlineEffectsAreMissed`).
- Two instances can get one name: exactly those with the same words in a row (`InstanceNames.NamesAreEqualIff`),
  such as a dotted argument and one with an underscore (`ExpandedRefs.DottedArgumentsCollide`,
  `ExpandedRefs.LongerTemplatesCollide`).
- Assignability is not transitive from faults directly around faults, and from these only
  (`Assignability.StepsComposeIff`, `Assignability.NestedFaultsAreNotTransitive`).
- Whether a type with an empty sequence matches depends on the order of the items (`MatchDemands.OrderMatters`),
  and a union in a pattern is decided by its first alternative (`MatchUnions.FirstAlternativeIsKept`).
- Taking a fault apart gives every name a fault of its item, and the checker leaves an item that is one already
  as it is; the TypeScript backend puts a second fault around it (src/codegen/typescript.rs:2033). The model
  follows the checker.
- Names of modules are made into words sign by sign, so two files may give their nodes the same names
  (`ImportedNames.ModulesMayMerge`).
- A character that was escaped as a surrogate pair is dropped (`JsonText.EscapeIsCharacterIff`).

## Model

| member | source | states |
|---|---|---|
| Tokens.DecimalRoundTrip | src/fmt.rs:642-683 | Reading the decimal digits written for a natural number gives the number back. |
| Rendering.EscapeUndone | src/fmt.rs:742-756 | For every string, the lexer's scan of the escaped string up to its closing quote returns the string, whatever follows. |
| Rendering.IntLexed | src/lexer.rs:140-195 | Every 64-bit integer, negative ones included, is lexed back from its digits as one token if no digit, letter or point follows. |
| Rendering.RealLexed | src/lexer.rs:140-195 | The text of a real literal, with or without the suffix `f32`, is lexed back as one token of the same kind and text. |
| Rendering.VariableLexed | src/lexer.rs:265-293 | `$` and a word is one variable token when no word character follows. |
| Rendering.FollowedByToken | src/lexer.rs:55-93 | The pairwise test that the layout uses is sound: a token text put directly behind another one that passes the test cannot merge with it (`->` and `-1`, `$` and a word, digits and a point). |
| Rendering.TokenLexed | src/lexer.rs:55-93 | A token written down in front of any text that cannot extend it is read back as exactly that token, with exactly that text left. |
| Rendering.RenderedLexes | src/lexer.rs:55-93 | Lexing a laid-out text gives exactly its tokens, for any blanks and any comments between them that the lexer skips. |
| Rendering.GapLexed | src/lexer.rs:55-93 | Lexing goes on behind blanks, lines from `#` on and closed block comments as if they were not there, whatever follows. |
| Lexer.LexedIsLexable | src/lexer.rs:55-93 | Whatever the text, every token the lexer returns can be written down again: words are words, integers fit 64 bits, reals have the one accepted shape. |
| Lexer.Scanner.SkipLineComment | src/lexer.rs:113-120 | Moves behind the comment: to the line end, or to the end of the text. |
| Lexer.Scanner.SkipBlockComment | src/lexer.rs:122-138 | Moves behind the first `*/`; fails exactly when there is none. |
| Lexer.Scanner.LexNumber | src/lexer.rs:140-195 | Pushes the integer or real that the number rules read and stops behind it; fails exactly on digits they refuse (an integer beyond 64 bits, an unknown suffix). |
| Lexer.Scanner.LexFraction | src/lexer.rs:140-195 | Reads the point and the digits of a real whose whole part is already scanned, and its suffix. |
| Lexer.Scanner.LexSuffix | src/lexer.rs:197-206 | Takes the letters behind a real: none is a `f64`, `f32` the other kind, everything else fails. |
| Lexer.Scanner.LexString | src/lexer.rs:208-248 | Pushes the unescaped string; fails exactly on an unknown escape or a missing quote. |
| Lexer.Scanner.LexIdent | src/lexer.rs:250-263 | Takes the longest word; `true` and `false` become booleans. |
| Lexer.Scanner.LexVariable | src/lexer.rs:265-293 | A word behind `$` makes a variable; a `$` before a blank, a closing bracket, a comma or `->` is a discard; everything else fails. |
| Lexer.Scanner.LexOne | src/lexer.rs:55-93 | One round of the loop pushes at most one token and leaves less text than before, as the step function says. |
| Lexer.Scanner.LexAll | src/lexer.rs:55-93 | The loop ends on every text; it succeeds exactly when the text can be cut into tokens, and what it pushed is those tokens and one `Eof`. |
| LexicalGrammar.WrittenIsRead | src/lexer.rs:55-111 | A text that is written as a token should be, with nothing behind it that would make it longer or different, is read as that token and no character more; the grammar says for each kind of token which texts these are. |
| LexicalGrammar.DroppedIsRead | src/lexer.rs:55-93 | A blank, a line comment with its line end and a closed block comment are dropped whole, and nothing is read for them. |
| LexicalGrammar.ReadWasWritten | src/lexer.rs:55-93 | Conversely whatever one round reads or drops was written in one of these ways. |
| LexicalGrammar.LexedIffSpelled | src/lexer.rs:55-93 | Lexing gives a list of tokens exactly when the text is these tokens, each written as the lexical grammar asks, with nothing but blanks and comments between them; so it is refused exactly when it is no such text. |
| Parser.Parser.ParseQualifiedIdent | src/parser.rs:691-698 | Returns a dotted name, as long as an identifier follows each dot and stops exactly behind it; fails exactly when the grammar has no such prefix here. The grammar function it is tied to is the one the round trip is proved about. |
| Parser.Parser.ParseNodeRef | src/parser.rs:700-721 | Returns a node reference with its static arguments in `<...>` and stops exactly behind it; fails exactly when the grammar has no such prefix here. The grammar function it is tied to is the one the round trip is proved about. |
| Parser.Parser.ParseBindingTarget | src/parser.rs:490-506 | Returns a variable, a discard or a nested tuple of targets and stops exactly behind it; fails exactly when the grammar has no such prefix here. The grammar function it is tied to is the one the round trip is proved about. |
| Parser.Parser.ParseBindingTuple | src/parser.rs:508-518 | Returns a tuple of at least two binding targets and stops exactly behind it; fails exactly when the grammar has no such prefix here. The grammar function it is tied to is the one the round trip is proved about. |
| Parser.Parser.ParseEndpointAtom | src/parser.rs:592-631 | Returns a literal, variable, name, tuple, sequence or struct literal and stops exactly behind it; fails exactly when the grammar has no such prefix here. The grammar function it is tied to is the one the round trip is proved about. |
| Parser.Parser.ParseTupleOrUnit | src/parser.rs:656-669 | Returns `()`, or a tuple of two items or more in parentheses; no single item in parentheses and no comma behind the last item and stops exactly behind it; fails exactly when the grammar has no such prefix here. The grammar function it is tied to is the one the round trip is proved about. |
| Parser.Parser.ParseSeq | src/parser.rs:671-689 | Returns a sequence literal; its items may be inline evaluations and stops exactly behind it; fails exactly when the grammar has no such prefix here. The grammar function it is tied to is the one the round trip is proved about. |
| Parser.Parser.ParseStructLiteral | src/parser.rs:633-654 | Returns a struct literal with its fields in order and stops exactly behind it; fails exactly when the grammar has no such prefix here. The grammar function it is tied to is the one the round trip is proved about. |
| Parser.Parser.ParseInlineEndpoint | src/parser.rs:576-590 | Returns an atom and all `->` stages behind it, taken greedily and stops exactly behind it; fails exactly when the grammar has no such prefix here. The grammar function it is tied to is the one the round trip is proved about. |
| Parser.Parser.ParseStages | src/parser.rs:401-411 | Returns the stages behind each `->`, as long as one follows and stops exactly behind it; fails exactly when the grammar has no such prefix here. The grammar function it is tied to is the one the round trip is proved about. |
| Parser.Parser.ParseStage | src/parser.rs:413-488 | Returns one stage: binding, field access, a combinator keyword, `match`, or a node and stops exactly behind it; fails exactly when the grammar has no such prefix here. The grammar function it is tied to is the one the round trip is proved about. |
| Parser.Parser.ParseFaultMap | src/parser.rs:413-488 | Returns `map` of a node with the two targets for successes and faults and stops exactly behind it; fails exactly when the grammar has no such prefix here. The grammar function it is tied to is the one the round trip is proved about. |
| Parser.Parser.ParseRepeat | src/parser.rs:413-488 | Returns `repeat` with its count and node and stops exactly behind it; fails exactly when the grammar has no such prefix here. The grammar function it is tied to is the one the round trip is proved about. |
| Parser.Parser.ParseMatchStage | src/parser.rs:520-563 | Returns the arms of a `match`: at least one, the fallback last, nothing behind it and stops exactly behind it; fails exactly when the grammar has no such prefix here. The grammar function it is tied to is the one the round trip is proved about. |
| Parser.Parser.ParseGuard | src/parser.rs:520-563 | Returns the guard of an arm: a node applied to endpoints, or the fallback and stops exactly behind it; fails exactly when the grammar has no such prefix here. The grammar function it is tied to is the one the round trip is proved about. |
| Parser.Parser.ParseMatchTarget | src/parser.rs:565-570 | Returns the target of an arm: a node when a name stands there, else a value and stops exactly behind it; fails exactly when the grammar has no such prefix here. The grammar function it is tied to is the one the round trip is proved about. |
| Parser.Parser.ParseTypeName | src/parser.rs:315-390 | Returns the tokens of a type, bracket depth counted, up to the first token that cannot go on with it and stops exactly behind it; fails exactly when the grammar has no such prefix here. The grammar function it is tied to is the one the round trip is proved about. |
| Parser.Parser.ParsePort | src/parser.rs:308-313 | Returns a name, a colon and a type and stops exactly behind it; fails exactly when the grammar has no such prefix here. The grammar function it is tied to is the one the round trip is proved about. |
| Parser.Parser.ParsePortList | src/parser.rs:300-306 | Returns ports separated by commas and stops exactly behind it; fails exactly when the grammar has no such prefix here. The grammar function it is tied to is the one the round trip is proved about. |
| Parser.Parser.ParsePortOrList | src/parser.rs:290-298 | Returns one port, or a list of them in parentheses and stops exactly behind it; fails exactly when the grammar has no such prefix here. The grammar function it is tied to is the one the round trip is proved about. |
| Parser.Parser.ParseInputs | src/parser.rs:227-249 | Returns the inputs of a callable: `()`, one port or a list and stops exactly behind it; fails exactly when the grammar has no such prefix here. The grammar function it is tied to is the one the round trip is proved about. |
| Parser.Parser.ParseTypeAlias | src/parser.rs:70-75 | Returns `type`, a name and its type and stops exactly behind it; fails exactly when the grammar has no such prefix here. The grammar function it is tied to is the one the round trip is proved about. |
| Parser.Parser.ParseStructDecl | src/parser.rs:77-96 | Returns a struct declaration with its fields and stops exactly behind it; fails exactly when the grammar has no such prefix here. The grammar function it is tied to is the one the round trip is proved about. |
| Parser.Parser.ParseImport | src/parser.rs:98-139 | Returns an import with its items, its alias, or neither and stops exactly behind it; fails exactly when the grammar has no such prefix here. The grammar function it is tied to is the one the round trip is proved about. |
| Parser.Parser.ParseForeign | src/parser.rs:141-192 | Returns a foreign block: language, origin and at least one node and stops exactly behind it; fails exactly when the grammar has no such prefix here. The grammar function it is tied to is the one the round trip is proved about. |
| Parser.Parser.ParseForeignNode | src/parser.rs:194-225 | Returns one node of a foreign block and stops exactly behind it; fails exactly when the grammar has no such prefix here. The grammar function it is tied to is the one the round trip is proved about. |
| Parser.Parser.ParseNodeParams | src/parser.rs:251-288 | Returns the static node parameters in `<...>` and stops exactly behind it; fails exactly when the grammar has no such prefix here. The grammar function it is tied to is the one the round trip is proved about. |
| Parser.Parser.ParseChain | src/parser.rs:401-411 | Returns an endpoint and all its stages and stops exactly behind it; fails exactly when the grammar has no such prefix here. The grammar function it is tied to is the one the round trip is proved about. |
| Parser.Parser.ParseBlock | src/parser.rs:392-399 | Returns the chains of a body up to its closing brace; there is no separator between them and stops exactly behind it; fails exactly when the grammar has no such prefix here. The grammar function it is tied to is the one the round trip is proved about. |
| Parser.Parser.ParseCallable | src/parser.rs:227-249 | Returns name, parameters, inputs, outputs and body and stops exactly behind it; fails exactly when the grammar has no such prefix here. The grammar function it is tied to is the one the round trip is proved about. |
| Parser.Parser.ParseDecl | src/parser.rs:32-68 | Returns one declaration, chosen by its first word and stops exactly behind it; fails exactly when the grammar has no such prefix here. The grammar function it is tied to is the one the round trip is proved about. |
| Parser.Parser.ParseModule | src/parser.rs:24-30 | Returns declarations up to the end of the tokens and stops exactly behind it; fails exactly when the grammar has no such prefix here. The grammar function it is tied to is the one the round trip is proved about. |
| RoundTrip.AtomParsed | src/parser.rs:592-631 | The tokens of a well-formed endpoint, followed by anything, are parsed back to it and no token more. |
| RoundTrip.InlineParsed | src/parser.rs:576-590 | So are those of an inline evaluation if no `->` follows, however deep stages, arms and endpoints are nested. |
| RoundTrip.StageParsed | src/parser.rs:413-488 | Every stage is parsed back from its tokens if what follows cannot go on with a node name. |
| RoundTrip.ArmsParsed | src/parser.rs:520-563 | The arms of a match are parsed back up to the closing brace, the fallback last. |
| RoundTrip.TypeParsed | src/parser.rs:315-390 | The tokens of a type are taken whole when what follows stops a type. |
| RoundTrip.ChainParsed | src/parser.rs:401-411 | A chain is parsed back although chains have no separator. |
| RoundTrip.ChainsParsed | src/parser.rs:392-399 | All chains of a body are parsed back up to its brace. |
| RoundTrip.CallableParsed | src/parser.rs:227-249 | A whole node or program is parsed back from its tokens. |
| RoundTrip.DeclParsed | src/parser.rs:32-68 | Every well-formed declaration is parsed back, with or without the optional last comma of its import list. |
| RoundTrip.ModuleParsed | src/parser.rs:24-30 | For every well-formed module and every choice of which imports end in a comma, parsing its tokens gives back exactly that module. |
| ParserResults.ArmsResult | src/parser.rs:520-563 | Every list of arms the parser returns is non-empty and has its one fallback at the end. |
| ParserResults.StageResult | src/parser.rs:413-488 | Every stage the parser returns is one the round trip holds for: a stage word is never taken for a node, and so on through all its parts. |
| ParserResults.ModuleResult | src/parser.rs:24-30 | Every module the parser returns for tokens of the lexer is well-formed. |
| GrammarParsed.AtomParsed | src/parser.rs:592-631 | An endpoint is read exactly when the tokens begin with one by the grammar, and then what is read and where it ends are what the grammar says; the grammar is a relation between trees, tokens and the tokens behind. |
| GrammarParsed.InlineParsed | src/parser.rs:576-590 | The same for an endpoint with all the stages behind it. |
| GrammarParsed.StageParsed | src/parser.rs:413-488 | The same for a stage, which word it begins with deciding its kind. |
| GrammarParsed.ArmsParsed | src/parser.rs:520-563 | The same for the arms of a match: guards, targets, and one fallback, at the end. |
| GrammarParsed.TypeParsed | src/parser.rs:315-390 | The same for a type: the longest run of tokens that may stand in one, with its brackets closed. |
| GrammarParsed.DeclParsed | src/parser.rs:32-68 | The same for a declaration of every kind. |
| GrammarParsed.ParsedIffSpelled | src/parser.rs:24-30 | A list of tokens parses to a module exactly when the grammar lets the declarations of the module be spelled by it; so a list is refused exactly when it spells no module, and it spells at most one. |
| GrammarParsed.SourceReadIff | src/parser.rs:6-30 | A text is read as a module exactly when it spells tokens that spell the module. |
| FormatTokens.AlignedTokens | src/fmt.rs:564-576 | Padding a chain to the columns of its group leaves the tokens of the chain. |
| FormatTokens.MultilineChainTokens | src/fmt.rs:373-397 | Writing a chain over several lines, with a long struct literal at its head or matches in it, leaves its tokens. |
| FormatTokens.BodyTokens | src/fmt.rs:309-355 | Whatever groups the chains are written in and whatever comments and blank lines stand between them, the body has the tokens of its chains in order. |
| FormatTokens.ModuleTokens | src/fmt.rs:191-205 | The text of a module has exactly the tokens of its declarations, with a last comma only in imports over several lines. |
| FormatSafety.StageSafe | src/fmt.rs:578-603 | Within every stage the printer leaves a blank wherever two tokens would merge. |
| FormatSafety.AlignedSafe | src/fmt.rs:564-576 | So it does in aligned chains, whatever the widths of the columns. |
| FormatSource.ModuleWhole | src/fmt.rs:191-205 | The text of every well-formed module with comments that are skipped ends in a line end and is free of merging tokens, but for those inside annotations that do not stay apart. |
| FormatSource.PrintedModuleParses | src/fmt.rs:190-706 | For every well-formed module whose annotations stay apart and every layout of blank lines and of comments that are skipped, lexing and parsing the printed text gives back exactly that module. |
| FormatSource.ParsedIsWellFormed | src/parser.rs:24-814 | Every module that is parsed from a source text is well-formed. |
| Merging.MergedTokensAreLost | src/lexer.rs:140-263 | Counting all tokens but commas and parentheses: lexing a text in which names and numbers may run into each other never finds more than were written, and fewer whenever two of them, or a number, a point and digits, do. |
| ParserWeights.ModuleTakes | src/parser.rs:24-30 | The parser invents and drops nothing: a module has exactly as many tokens, commas and parentheses aside, as it was parsed from, whichever of its lists end in a comma. |
| FormatLimits.ModuleStays | src/fmt.rs:516-540 | Conversely a printed module that is free of merging tokens has annotations that stay apart: no name or number directly before a name or digits, no number before a point and digits. |
| FormatLimits.PrintedModuleParsesIff | src/fmt.rs:190-706 | A well-formed module printed with comments that are skipped is parsed back, annotations token by token, exactly when the tokens of every annotation stay apart. |
| Annotations.LikeModulesPrintAlike | src/fmt.rs:516-540 | Two modules whose annotations have the same joined texts, which is all the source keeps of them, are printed alike, however those texts were cut into tokens. |
| Annotations.ApartIsReread | src/parser.rs:315-390 | An annotation whose tokens stay apart is read back from its printed line, token by token. |
| Annotations.RereadIsApart | src/parser.rs:315-390 | And a text that is read back from its printed line is the text of tokens that stay apart. |
| Annotations.PrintedTextsParseIff | src/fmt.rs:516-540 | What the source keeps of a module, annotations as joined texts, is read back from its printed text exactly when every annotation, printed alone on a line, is read back with its text. |
| Annotations.SplitNamesAreReadable | src/fmt.rs:516-540 | An annotation of two names that make up a third one is read back as that name: its tokens change, its joined text does not. |
| CommentTokens.LinesLexed | src/lexer.rs:55-93 | Whole lines that leave no string or comment open give the same tokens, or the same failure, whatever follows them. |
| CommentTokens.SkipsIff | src/lexer.rs:55-93 | Whole lines are skipped exactly when they give no tokens. |
| CommentTokens.LooseLexed | src/lexer.rs:55-93 | Counting as above: a text with comments that end where they are written gives at least its own tokens when it is lexed, and more unless every comment is skipped. |
| FormatProgram.ModuleLoose | src/fmt.rs:191-205 | The printed text of a module whose annotations stay apart is such a text for all comments that end where they are written, and all of them stand in it. |
| FormatProgram.CollectedShape | src/fmt.rs:63-182 | What is collected of a text has one entry for each declaration and each chain. |
| FormatProgram.FormattingPreservesProgramIff | src/fmt.rs:848-861 | For every source that parses, with the comments collected from it: the formatted text parses to the same module exactly when the tokens of every annotation stay apart and every comment that is kept is skipped where it is written. Either the comments are skipped, or tokens stay apart and comments end where they are written. |
| FormatProgram.FormattingPreservesTextsIff | src/fmt.rs:848-861 | For every source that parses and whose kept comments are skipped, what the source keeps of the module, annotations as joined texts, is kept exactly when every annotation, printed alone on a line, is read back with its text. |
| SkippedComments.StandAloneBlocksAreSkipped | src/fmt.rs:100-133 | A test of the source text alone: when nothing but comments stands behind a block comment on the line where it ends, if it starts its line, all comments that are kept are skipped where they are written. |
| FormatProgram.StandAloneProgramIsKeptIff | src/fmt.rs:848-861 | Every source that parses and passes this test keeps its program exactly when the tokens of every annotation stay apart. |
| CommentFaults.ChainsBehindCommentsAreDoubled | src/fmt.rs:114-126 | A source that fails it: for all programs and all comments, the chain behind a block comment that starts its line is formatted to two copies of that chain. |
| StringFaults.LinesOfStringsAreTakenForComments | src/fmt.rs:100-133 | Another one: for all programs with a string over two lines whose second line starts a block comment, that line is written again with its quote open, and the formatted text does not parse. |
| FaultsCancel.FaultsMayCancel | src/fmt.rs:114-126 | Both faults at once may undo each other: a number lost where two run into each other and one found behind a comment leave the program as it was. |
| CommentLayout.UpdateDepths | src/fmt.rs:781-812 | The loop over characters counts braces, parentheses and brackets and skips strings with their escapes. |
| CommentLayout.SplitLineComment | src/fmt.rs:758-779 | The loop over characters cuts a line at its first `#` outside of strings, each line starting outside of them, and trims the comment at its end. |
| CommentLayout.CollectLine | src/fmt.rs:100-133 | One line: inside a block comment it is kept, trimmed at its end, up to the line with the end; a line that starts with `/*` is kept whole or opens a block; else it is split at its comment. |
| CommentLayout.CollectCode | src/fmt.rs:114-176 | The rest of the round: a comment alone waits for a chain or a declaration, a blank line is noted inside a callable, a keyword at the outermost level takes the comments that wait, a line of a body outside of all brackets starts a chain and takes the note, the comments and its own, and the last closing brace ends the callable. |
| CommentLayout.Collect | src/fmt.rs:63-182 | The loop over the lines of a text gives the comments and blank lines of each declaration and chain; comments left over go to the next declaration. |
| CommentAccount.CommentsAreKeptOrLost | src/fmt.rs:63-182 | For every text and every comment: it is collected as often as the text has it on a line, less the times it stands behind code that begins no chain, behind the last chain of a callable, or behind the last declaration, or in a block comment that does not end. So none is made up, and none is lost otherwise. |
| CommentAccount.CommentIsKeptIff | src/fmt.rs:63-182 | A comment is kept everywhere exactly when it stands in no such place. |
| CommentAccount.CommentsBeforeTheBraceAreLost | src/fmt.rs:172-176 | The second happens to comments on lines of their own: whatever the text before and behind, one that is followed by the closing brace of its callable leaves no trace. |
| CommentAccount.CommentsAtTheEndAreLost | src/fmt.rs:178-181 | So does the third, for every text whose declarations have all begun and none is open. |
| KeptComments.CollectedIsKept | src/fmt.rs:63-182 | Whatever the text, what is collected is whole: lines from `#` on and block comments with their last line, and behind chains a comment from `#` on without blanks at its end. |
| KeptComments.RemarksRead | src/fmt.rs:100-133 | Comments written on lines of their own are collected from them again, with the indentation of the lines inside a block changed. |
| KeptComments.AgainIsWritten | src/fmt.rs:443-447 | And they are written the same the second time. |
| PrintedLines.FirstLine | src/fmt.rs:758-779 | The first line of a printed text is cut where its comment starts, and the level behind it is that behind its tokens. |
| PrintedLines.InnerLine | src/fmt.rs:143-168 | A printed line inside braces is read by its first token: all but an arrow and a closing brace start a chain, if one may start there. |
| LayoutLines.MultilineRead | src/fmt.rs:373-397 | A chain over several lines, with matches or a long struct literal, is read as one chain. |
| LayoutRead.BodyReads | src/fmt.rs:309-355 | The body of a callable is read back as its chains with the comments and blank lines printed before and behind them, however the chains are grouped and aligned. |
| LayoutRead.PrintedLayout | src/fmt.rs:63-182 | Reading any printed module gives exactly the comments and blank lines it was printed with, but none in callables behind annotations whose parentheses or brackets do not match, and no comment behind a long struct literal. |
| Idempotence.CommentsStayIff | src/fmt.rs:63-182 | Printing a module with the comments read back from its printed text gives that text again exactly when none of them is lost there. |
| Idempotence.CollectedCanBeRead | src/fmt.rs:63-182 | Comments collected from any text that are skipped where they are written meet what these readings ask for. |
| Idempotence.FormattingIsIdempotentIff | src/fmt.rs:848-861 | For every source whose annotations are read back with their texts and whose kept comments are skipped: formatting the formatted text changes nothing exactly when nothing is kept for a chain behind unbalanced annotations, and no comment behind a long struct literal. |
| Misreading.MisreadCommentsAreLost | src/fmt.rs:136-146 | The first happens: a keyword as the name of a type on a line of its own shifts the count of declarations, and the comments and blank lines of one callable are printed in the next and taken out the second time. |
| CommentFaults.LongStructCommentsAreLost | src/fmt.rs:373-441 | And so does the second, for every chain that starts with a struct literal too wide for a line: the comment behind it goes to its last line and is lost when formatting again. |
| TypeTexts.TypeApartIff | src/types.rs:389-474 | The tokens of a type of the type language (names, applications, tuples, unions) stay apart exactly when those of each of its names do. |
| TypeTexts.DottedApart | src/types.rs:459-474 | Names of words with dots between them always do. |
| TypeTexts.NumberedTypesAreLost | src/fmt.rs:516-540 | Names with two numbers in a row do not, though the type parser takes them: for all words and numbers `type N = x.a . b` parses, and its formatted text is no text of the same program. |
| CanonicalLayout.ArrowStands | src/fmt.rs:564-576 | In a line made of parts, paddings and arrows, the arrow behind part `j` stands in the column that is computed for it. |
| CanonicalLayout.AlignmentIsUnique | src/fmt.rs:549-562 | For any lines there is at most one choice of paddings that puts arrows with the same number into the same column and leaves no column wider than its widest part. |
| CanonicalLayout.GroupIsAlignedIff | src/fmt.rs:357-371 | A group of chains is written as the one text of its lines in which arrows with the same number stand below each other and some line needs no padding before each. |
| CanonicalLayout.BodyIsLaidOutIff | src/fmt.rs:309-355 | The body of a callable is the one text of its chains in which every longest run of chains on one line each, with no blank line or comment between them, is aligned so, and in which blank lines and comments stand where they were collected. |
| DeclarationLayout.DeclIsLocal | src/fmt.rs:207-229 | What is written of a declaration, blank lines in its body included, does not depend on what was written before it, and it ends with exactly one newline. |
| DeclarationLayout.DeclTextEnds | src/fmt.rs:207-229 | With the comments before it, too, the text of a declaration ends with exactly one newline. |
| DeclarationLayout.ModuleIsSeparated | src/fmt.rs:191-205 | The text of every well-formed module is that of its declarations and their comments, with exactly one blank line between two of them, and none between imports, type aliases or structs that follow each other; it ends with exactly one newline. |
| DeclarationTexts.HeaderIs | src/fmt.rs:309-355 | The header of a callable is one line, with its parameters in `<...>` if there are any, its inputs in parentheses and its outputs without them if there is one. |
| DeclarationTexts.AliasIs | src/fmt.rs:207-229 | A type alias is one line. |
| DeclarationTexts.StructIs | src/fmt.rs:270-276 | A struct has a line for each field, indented by four blanks and with a comma behind it. |
| DeclarationTexts.ImportIs | src/fmt.rs:278-307 | An import of items is one line exactly when it has at most four items and that line at most a hundred characters; else each item has an indented line with a comma behind it. |
| DeclarationTexts.ForeignIs | src/fmt.rs:231-268 | A foreign block has an indented line for each node. |
| DeclarationTexts.BrokenIff | src/fmt.rs:338-343 | A chain is written over several lines exactly when one of its stages is a match or its source is a struct literal of more than a hundred characters. |
| DeclarationTexts.BrokenChainIs | src/fmt.rs:373-397 | Then its source is one line, its comment behind it, and each stage has an indented line, a match one for each arm, indented twice. |
| DeclarationTexts.LongStructIs | src/fmt.rs:399-441 | The long literal has a line for each field, indented twice, and the stages before the first match stay on its last line, the comment behind them. |
| Spacing.EndpointSpaced | src/fmt.rs:642-683 | Within every endpoint there are no blanks inside brackets, before commas, colons and the parenthesis of a call, around dots and inside `<...>`, and exactly one blank between all other tokens. |
| Spacing.PartsAreSpaced | src/fmt.rs:578-603 | The same for every part of a chain: source, binding, combinator or match. |
| Spacing.SpacingIsUnique | src/fmt.rs:578-683 | So the tokens of a part determine its text: two texts with these blanks and the same tokens are the same characters. |
| Formatter.FormatTypeName | src/fmt.rs:516-540 | The loop over characters drops the blanks behind `,` and the bar, trims before the bar and copies the rest. |
| Formatter.TypeNameLaidOut | src/fmt.rs:516-540 | On the text of any token sequence a type is made of, that loop writes what the token layout says. |
| Formatter.ChainGroupWidths | src/fmt.rs:549-562 | Every column is as wide as its widest part that has an arrow behind it, and there is a column for every arrow. |
| Formatter.FormatAlignedChain | src/fmt.rs:564-576 | Every part but the last is padded to its column and followed by an arrow. |
| Formatter.Formatter.Line | src/fmt.rs:449-452 | Appends a text and a line end. |
| Formatter.Formatter.WriteBlankLine | src/fmt.rs:454-458 | Appends an empty line unless the output ends in one. |
| Formatter.Formatter.WriteComments | src/fmt.rs:443-447 | Appends comments on lines of their own, trimmed at their start. |
| Formatter.Formatter.FormatTypeAlias | src/fmt.rs:207-229 | Appends the line of a type alias. |
| Formatter.Formatter.FormatStruct | src/fmt.rs:270-276 | Appends a struct declaration, one field a line. |
| Formatter.Formatter.FormatImport | src/fmt.rs:278-307 | Appends an import, on one line exactly when it fits and else one item a line. |
| Formatter.Formatter.FormatForeign | src/fmt.rs:231-268 | Appends a foreign block, one node a line. |
| Formatter.Formatter.FlushChainGroup | src/fmt.rs:357-371 | Writes the pending chains, aligned among themselves, each with its comment behind it, and empties the group. |
| Formatter.Formatter.FormatChainMultiline | src/fmt.rs:373-397 | Appends a chain with a match or a long struct literal, one stage or arm a line, its comment behind the first line, or the last of the literal. |
| Formatter.Formatter.FormatLongStruct | src/fmt.rs:399-441 | Appends a struct literal one field a line; the stages before the first match stay on its last line. |
| Formatter.Formatter.FormatCallable | src/fmt.rs:309-355 | Appends the header, then the chains: aligned in groups that end at blank lines, at comments and at multi-line chains, and the brace. |
| Formatter.Formatter.FormatDecl | src/fmt.rs:207-229 | Appends any declaration. |
| Formatter.Formatter.FormatModule | src/fmt.rs:191-205 | Writes the whole module with its comments and a blank line between declarations where the rules ask for one; the text is the one all the theorems are about. |
| Dataflow.TargetReadsBack | src/codegen/llvm_text.rs:741-780 | In the interpreter: a value taken apart by a target is put together again by reading the names in the shape of the target. |
| Dataflow.InputsAreHandedOn | src/codegen/llvm_text.rs:59-239 | In the interpreter: a callable without chains whose outputs are its inputs returns its argument, in whatever number of ports. |
| Expansion.EndpointRuns | src/monomorphize.rs:182-219 | An endpoint under parameter bindings and its rewriting without bindings have the same value, when calls of references and of rewritten references agree. |
| Expansion.StageRuns | src/monomorphize.rs:140-180 | The same for every stage, with identities and repeat counts left as they are. |
| Expansion.CallableRuns | src/monomorphize.rs:126-138 | The same for a whole callable. |
| Expansion.EndpointStays | src/monomorphize.rs:182-219 | Rewriting without bindings changes nothing that has no static arguments. |
| Expansion.CallRuns | src/monomorphize.rs:221-248 | A call under bindings returns what the rewritten call returns in the expanded module, however many calls are nested in it, recursion included. |
| Expansion.ExpansionPreservesMeaning | src/monomorphize.rs:40-247 | Every program and every node without static parameters returns the same value on every input, for every meaning of the primitive nodes and every bound on nested calls, before and after expansion (or none in both). |
| Expansion.InstancesMeanTheirTemplates | src/monomorphize.rs:71-115 | A template applied to nodes means what its generated instance means. |
| ExpandedRefs.StaticArgumentsAreGoneIff | src/monomorphize.rs:140-248 | No static argument survives the expansion exactly when identities and repeat counts have none: these the rewriter skips. |
| InstanceNames.NamesAreEqualIff | src/monomorphize.rs:117-124 | Two instances get one name exactly when the words of their template and arguments, cut at every character that becomes an underscore, are the same in a row. |
| InstanceNames.NamesDifferIff | src/monomorphize.rs:117-124 | So no two instances of a list share a name exactly when no two have the same words, which can be told from the keys. |
| ExpandedRefs.PlainNamesDiffer | src/monomorphize.rs:117-124 | Instances of names without dots and underscores never share a name. |
| ExpandedRefs.DottedArgumentsCollide | src/monomorphize.rs:251-261 | A dotted argument and one with an underscore get one instance name, for all words. |
| ExpandedRefs.LongerTemplatesCollide | src/monomorphize.rs:117-124 | So do a template with two arguments and a template of a longer name with one. |
| ExpandedRefs.CollisionsDeclareTwice | src/monomorphize.rs:71-115 | Then the expansion declares one name twice, for different instances. |
| Monomorphizer.NeededInUniverse | src/monomorphize.rs:71-115 | Every instance that is ever needed has one of finitely many keys, built from the templates and the argument names of the module: the measure of termination. |
| Monomorphizer.NeededIsMemoised | src/monomorphize.rs:71-115 | When no instance is open any more, every instance reachable from the roots is in the memo table. |
| Monomorphizer.Complete | src/monomorphize.rs:40-69 | Then the generated callables are the needed instances, each exactly once and each the specialised body of its template. |
| Monomorphizer.Monomorphizer.Instantiate | src/monomorphize.rs:71-115 | Returns the one name of an instance; a memo hit or a fresh body, whose own calls are served; the stack of open instances is a subset of the memo table and is restored. |
| Monomorphizer.Monomorphizer.RewriteNodeName | src/monomorphize.rs:221-248 | Replaces a parameter by its binding and an application by its instance, which is then in the memo table; fails only for modules that are to be refused. |
| Monomorphizer.Monomorphizer.RewriteCallable | src/monomorphize.rs:126-138 | Rewrites all chains, and every reference in them is served. |
| Monomorphizer.Monomorphizer.RewriteStage | src/monomorphize.rs:140-180 | Rewrites every reference of a stage except in identities and counts. |
| Monomorphizer.Monomorphizer.RewriteEndpoint | src/monomorphize.rs:182-219 | Rewrites every reference inside an endpoint. |
| Monomorphizer.Monomorphizer.Expand | src/monomorphize.rs:40-69 | Ends on every module; it fails exactly when a needed application has the wrong number of arguments, is one of a parameter or of no template, or a program has parameters, and else returns the kept declarations and the needed instances. |
| StaticParameters.BindsIff | src/monomorphize.rs:96-101 | Each parameter of a template is bound to the argument at its own place, and of two parameters with one name the later one counts. |
| StaticParameters.DeclaresIff | src/monomorphize.rs:23-38 | A name stands for the last template that is declared with it, and among the other nodes for the last of those. |
| StaticParameters.KeptInPlace | src/monomorphize.rs:40-69 | Templates are left out, and every other declaration stays at its place among the others: programs and nodes with their references rewritten and nothing else changed, imports, types and foreign blocks as they are. |
| StaticParameters.RefusedIff | src/monomorphize.rs:40-115 | A module is turned down exactly when a program has static parameters or a callable that is reached from one without, template by template, gives arguments to a parameter, to a name that is no template, or to a template with another number of parameters. |
| NodeRefs.RefRoundTrip | src/node_ref.rs:7-41 | Parsing the written form of a static node reference gives the reference back. |
| NodeRefs.RefTextIsInjective | src/node_ref.rs:7-13 | Different references have different texts, so the model may keep references as structures where the source keeps text. |
| GpuLowering.BindTargetExpr | src/codegen/gpu.rs:442-466 | Binds the parts of a tuple expression to the variables of a target and leaves the others alone; fails on a shape that does not fit. |
| GpuLowering.LowerTypedEndpoint | src/codegen/gpu.rs:300-346 | The expression of an endpoint: literals, variables, tuples and inline calls, nothing else. |
| GpuLowering.LowerItemList | src/codegen/gpu.rs:300-346 | The expressions of the items of a tuple, in order, or nothing when one has none. |
| GpuLowering.LowerStageList | src/codegen/gpu.rs:261-298 | The loop over stages threads the expression through calls and bindings. |
| GpuLowering.LowerChainList | src/codegen/gpu.rs:261-298 | The loop over chains threads the environment. |
| GpuLowering.LowerNodeCall | src/codegen/gpu.rs:348-390 | A call: of a built-in by name first, else the callee inlined with its one input and its first output. |
| GpuLowering.LowerKernel | src/codegen/gpu.rs:261-298 | The expression of a kernel; nothing exactly when the callable is impure, does not take and return one number of one type, or it or something it calls uses what a kernel cannot do (`GpuLimits.LoweredIff`). |
| GpuLimits.BuiltinShaped | src/codegen/gpu.rs:392-439 | A built-in node is lowered exactly when it is one of the named ones on an expression of the shape it takes: a pair, a triple for the choice, an integer literal for a conversion of one, anything for a sign or a function. |
| GpuLimits.EndpointShaped | src/codegen/gpu.rs:300-346 | An endpoint is lowered exactly when it is made of numbers, truth values, bound names, tuples and inline evaluations of calls. |
| GpuLimits.CallShaped | src/codegen/gpu.rs:348-390 | A call is lowered exactly when its node has one input and can be inlined for its first output, or is a built-in that can be lowered. |
| GpuLimits.LoweredIff | src/codegen/gpu.rs:261-298 | A callable becomes a kernel exactly when it is pure, takes one i32, f32 or f64 and returns one of the same type, all its endpoints and stages, chain by chain, and those of all it inlines are such as above, every tuple target fits, and the output is bound. |
| GpuMeaning.PlainBuiltinSame | src/codegen/gpu.rs:392-439 | The operator or function chosen for a built-in node computes what the node computes. |
| GpuMeaning.BuiltinSame | src/codegen/gpu.rs:392-439 | Also when its input may be a fault. |
| GpuMeaning.EndpointCarries | src/codegen/gpu.rs:300-346 | The expression of an endpoint evaluates to the endpoint's value and can be written as a shader, part by part; for 32-bit integers it refuses at one input exactly when it does at zero. |
| GpuMeaning.CallCarries | src/codegen/gpu.rs:348-390 | So does an inlined call, and its value is what running the call returns. |
| GpuMeaning.KernelMeansCallable | src/codegen/gpu.rs:261-439 | For every kernel that is lowered and every input, evaluating its expression returns what running the dataflow callable returns; for 32-bit integers that, or the shader is refused. |
| GpuMeaning.KernelShaderMeansCallable | src/codegen/gpu.rs:261-568 | The shader written for such a kernel returns what the callable returns, with the same exception. |
| GpuMeaning.RefusalIsStatic | src/codegen/gpu.rs:261-439 | When that is does not depend on the input: a kernel of 32-bit integers is refused at one exactly when it is at zero, and a callable that may become one returns its input. |
| GpuDepth.DepthDoesNotMatter | src/codegen/gpu.rs:348-390 | If the calls have ranks, so that none leads back, the lowered kernel is the same at every depth from the ranks up, so the depth the model inlines to is no restriction. |
| GpuMeaning.FirstOutputIsTheValueIff | src/codegen/gpu.rs:348-390 | Inlining keeps the first output; that is the callable's value exactly when it has one output. |
| GpuMeaning.NamesakesAreIgnored | src/codegen/gpu.rs:348-390 | A callable that has not one input is not inlined: for every call of one, the kernel computes the built-in node of its name, which is the call's value exactly when the callable returns what that node does. |
| GpuMeaning.NamesakesDiffer | src/codegen/gpu.rs:348-390 | They differ for a node `add` that returns its first input: on all reals the kernel adds. |
| GpuMeaning.ShaderMeansExpression | src/codegen/gpu.rs:515-567 | The shader expression that is written computes the lowered expression; `select` takes the value for false first, and the names of functions and signs lead back to their operations. |
| SsaForm.NumericGrows | src/codegen/llvm_text.rs:451-509 | Every emitted instruction of a numeric node assigns a fresh register and reads earlier ones. |
| SsaForm.CallGrows | src/codegen/llvm_text.rs:386-423 | So do those of every call. |
| SsaForm.EmittedCodeIsSsa | src/codegen/llvm_text.rs:59-192 | In every emitted function each register is assigned exactly once, before any use, and the returned value is defined. |
| SsaTypes.CallsAreDeclared | src/codegen/llvm_text.rs:386-449 | Every call in an emitted function of anything but an emitted callable is among the declarations, with the type of its result and those of its operands, and every declaration that is added is for such a call. |
| SsaTypes.UsesHaveTheirTypes | src/codegen/llvm_text.rs:59-317 | Every operand of every instruction, and the returned value, is used at the type it was assigned or passed with; a count of repetitions is passed as it is. |
| SsaCorrect.NumericMeans | src/codegen/llvm_text.rs:451-509 | The instructions of a numeric node compute its operation; a minimum or maximum is the comparison and the choice. |
| SsaCorrect.CallMeans | src/codegen/llvm_text.rs:386-423 | A call emitted for a node leaves the value of the node's call in its register. |
| SsaCorrect.EndpointMeans | src/codegen/llvm_text.rs:241-384 | The instructions of an endpoint leave its value, tuples built field by field; a match has no value here. |
| SsaCorrect.BindMeans | src/codegen/llvm_text.rs:741-780 | After binding a target every variable holds its part of the value. |
| SsaCorrect.ReturnedMeans | src/codegen/llvm_text.rs:194-239 | The returned operand holds the outputs, one alone or an aggregate of all. |
| SsaCorrect.EmittedCodeMeansGraph | src/codegen/llvm_text.rs:59-317 | Wherever evaluating the graph has a value, which no graph with a match has, a function is emitted, and executing its instructions from `%input` returns that value, for every meaning of the called functions and of arithmetic. |
| SsaLimits.GraphHasValueIff | src/codegen/llvm_text.rs:59-317 | A graph has a value exactly when a function is emitted for it and it has no match, no text or sequence literal and no tuple without a tuple type. |
| SsaRules.EmittedIff | src/codegen/llvm_text.rs:59-423 | A function is emitted for a callable, with a result of a type, exactly when types can be followed from its inputs through its chains to its outputs by rules that know of no instruction: which types a call, a combinator, a target and a tuple take and give. |
| SsaRules.NumericIff | src/codegen/llvm_text.rs:451-509 | A built-in node is an operation of its own exactly when it is one of seven names on two numbers of one type, the type of the result; there is no remainder of reals. |
| SsaRules.CallBecomes | src/codegen/llvm_text.rs:386-509 | A call becomes a call of the emitted callable, of the foreign symbol, the operation on the two items of its argument, or a call of the built-in symbol, whichever is first; minimum and maximum become a comparison and a choice. |
| SsaLimits.ArmsAreLeftOut | src/codegen/llvm_text.rs:718-739 | The arms of a match are not emitted: callables that differ only in them have the same instructions. |
| LlvmText.LlvmText.NextTemp | src/codegen/llvm_text.rs:806-810 | Hands out register numbers, each once. The new text, register counter and declarations are those of the specification the theorems are about. |
| LlvmText.LlvmText.DeclareSymbol | src/codegen/llvm_text.rs:800-804 | Adds the declaration of a symbol with its types to those there are, and nothing else. The new text, register counter and declarations are those of the specification the theorems are about. |
| LlvmText.LlvmText.ExtractTupleField | src/codegen/llvm_text.rs:782-798 | Emits the extraction of a tuple field; fails on anything but a tuple with such a field. The new text, register counter and declarations are those of the specification the theorems are about. |
| LlvmText.LlvmText.EmitNumericBuiltin | src/codegen/llvm_text.rs:451-509 | Emits an operation exactly for the numeric names on two numbers of one type, else emits nothing. The new text, register counter and declarations are those of the specification the theorems are about. |
| LlvmText.LlvmText.EmitNodeCall | src/codegen/llvm_text.rs:386-423 | Emits a call of a node in the order the source decides: local, numeric, built-in. Calls of built-in and foreign symbols are declared with the types of their operands, and nothing else is. The new text, register counter and declarations are those of the specification the theorems are about. |
| LlvmText.LlvmText.EmitValue | src/codegen/llvm_text.rs:241-384 | Emits the instructions of an endpoint. The new text, register counter and declarations are those of the specification the theorems are about. |
| LlvmText.LlvmText.EmitValueStage | src/codegen/llvm_text.rs:59-192 | Emits a stage that hands a value on. The new text, register counter and declarations are those of the specification the theorems are about. |
| LlvmText.LlvmText.BindTarget | src/codegen/llvm_text.rs:741-780 | Takes a value apart for the variables of a target. The new text, register counter and declarations are those of the specification the theorems are about. |
| LlvmText.LlvmText.EmitResult | src/codegen/llvm_text.rs:194-239 | Emits the returned value. The new text, register counter and declarations are those of the specification the theorems are about. |
| LlvmText.LlvmText.EmitFunction | src/codegen/llvm_text.rs:59-192 | Emits a whole function into an empty body, from register 0; declarations accumulate over functions: those there were stay, every outside call of the body is declared with its types, and nothing else is added. The new text, register counter and declarations are those of the specification the theorems are about. |
| GpuReduce.Thread | src/build.rs:4625-4654 | One thread writes at most its own slot, and nothing when its number is past the end; the value read out of range before the choice does not matter. |
| GpuReduce.OutLenIsRightIff | src/build.rs:4625-4654 | The length the shader computes in 32-bit words is half the virtual length, rounded up, exactly when that length is below 2^32 - 1. |
| GpuReduce.ThreadComputesRound | src/build.rs:4625-4654 | A thread combines the two neighbours of its number, or the last value with the identity. |
| GpuReduce.Dispatch | src/build.rs:2860-2900 | A round in which the threads run in any order leaves exactly one pairwise round in the output buffer. |
| GpuReduce.DispatchReduceBuffer | src/build.rs:2827-2912 | The loop ends for every length and returns the tree of rounds, the identity put in front in the first round only. |
| GpuReduce.DispatchReduce | src/build.rs:2808-2825 | An empty input gives the identity; else the tree over the identity and the input. |
| GpuReduce.TreeIsPaddedFold | src/build.rs:2827-2912 | For every associative operation the tree is the sequential fold with the identity once more for every odd round. |
| GpuReduce.ExtremumIsFold | src/build.rs:4625-4654 | For an associative, commutative and idempotent operation it is the fold from any identity. |
| GpuReduce.RealExtremaQualify | src/build.rs:4625-4654 | Minimum and maximum of reals are such operations. |
| GpuReduce.IntExtremaQualify | src/build.rs:4625-4654 | So are those of 32-bit integers. |
| GpuReduce.RealExtremaAreFound | src/build.rs:4625-4654 | The reductions of reals that are called minimum and maximum return the least and the greatest of the identity and the values, for every number of them. |
| GpuReduce.IntExtremaAreFound | src/build.rs:4625-4654 | So do those of 32-bit integers. |
| GpuReduce.NeutralReductionIsFold | src/build.rs:2827-2912 | With a neutral identity it is the fold for every associative operation. |
| GpuReduce.NoOddRoundIff | src/build.rs:2827-2912 | There is no odd round exactly for lengths that are powers of two. |
| GpuReduce.SumCountsIdentity | src/build.rs:2827-2912 | A sum counts the identity once, and once more for every odd round. |
| GpuReduce.SumIsFoldIff | src/build.rs:2827-2912 | So it is the fold exactly when the identity is zero or the values with the identity fill a power of two. |
| GpuReduce.WrappedSumCountsIdentity | src/build.rs:4625-4654 | Sums of 32-bit integers wrap around and count the identity in the same way. |
| GpuReduce.WrappedSumIsFoldIff | src/build.rs:4625-4654 | So such a sum is the wrapped fold exactly when the number of odd rounds times the identity is a multiple of 2^32. |
| TypeMatching.MatchTypes | src/types.rs:211-301 | The loops over items and fields thread the bindings from left to right and stop at the first mismatch. |
| TypeMatching.MatchIsSound | src/types.rs:211-336 | A successful match extends the bindings, and substituting them in the pattern gives the actual type. |
| TypeMatching.MatchIsLeast | src/types.rs:211-336 | If any extension makes the pattern the actual type, matching succeeds and its bindings are contained in that extension. |
| TypeMatching.MatchSucceedsIff | src/types.rs:211-336 | Matching succeeds exactly when some extension makes the pattern the actual type. |
| TypeMatching.EmptySequenceMatchesAnySequence | src/types.rs:211-301 | An empty sequence literal matches every sequence pattern although no substitution gives its type. |
| MatchDemands.MatchTakesDemands | src/types.rs:211-336 | With empty sequences anywhere in the actual type: matching collects what each variable is asked to be, from left to right, and binds the first type that is no empty sequence; it fails exactly when shapes differ or a later type does not fit. |
| MatchDemands.MatchSucceedsWithEmptyIff | src/types.rs:211-336 | So matching succeeds exactly when the shapes are the same and each variable is asked for one type, or for one sequence type and, after it, empty sequences; an empty sequence before it asks for nothing. |
| MatchDemands.OrderMatters | src/types.rs:211-336 | That depends on the order: for every type that is no sequence, an empty sequence and then the type is taken for one variable, the other way round is not. |
| MatchUnions.MatchSuits | src/types.rs:211-301 | With unions and empty sequences anywhere in both types: a match only adds bindings, and under them the actual type suits the pattern, by some alternative of a union in it and by every one of a union in the actual type. |
| MatchUnions.MatchSucceedsIffSuits | src/types.rs:211-301 | With no variable inside a union of the pattern, and none in the actual type nor an empty sequence: matching succeeds exactly when some further bindings make the types suit, and it binds no more than any of those. |
| MatchUnions.FirstMatchIsTaken | src/types.rs:246-263 | A union matches exactly when an alternative does, and takes the bindings of the first that does. |
| MatchUnions.FirstAlternativeIsKept | src/types.rs:246-263 | With a variable inside a union a suiting type need not match: for all different types `t`, `u`, the pair of a union of a variable with `t` and that variable suits `(t, u)` and does not match it. |
| Assignability.UnwrapTupleType | src/types.rs:175-199 | The loop over the items unwraps a tuple with a faultable item, nested tuples included, and returns nothing for other types. |
| Assignability.IsAssignable | src/types.rs:145-159 | Decides assignability: equal types, a match, the inside of a faultable type, an unwrapped tuple. |
| Assignability.TypeOfArms | src/typecheck.rs:952-960 | Folds the common type over the arms from the top. |
| Assignability.AssignableIs | src/types.rs:145-199 | On types without variables and unions: assignable means covered, or covered inside the faultable type after unwrapping the other. |
| Assignability.AssignableIsReflexive | src/types.rs:145-159 | Every type is assignable to itself. |
| Assignability.AssignableIsTransitive | src/types.rs:145-199 | From a closed type without faults directly in faults, over all closed types, assignability is transitive, empty sequences and unwrapped tuples included. |
| Assignability.StepsComposeIff | src/types.rs:145-199 | For every closed type: all pairs of steps from it over closed types compose exactly when it is not a fault directly around a fault. |
| Assignability.EveryArmFits | src/types.rs:161-173 | The type folded over any number of arms is one that every arm is assignable to. |
| Assignability.ArmsHaveTypeIff | src/types.rs:161-173 | For arms without faults around faults: they have a common type exactly when, from the top on, there is always an arm so far that takes all so far; it is then the type of the first arm that takes them all. |
| Assignability.UnwrappedIff | src/types.rs:175-199 | Unwrapping a tuple takes away the fault around each item that has one, at any depth of tuples, and nothing else, and gives nothing exactly when there is none. |
| Assignability.NestedFaultsAreNotTransitive | src/types.rs:145-173 | For every closed item, the fold over arms with such faults finds a type that is not assignable from the first arm. |
| Effects.UsesIoIff | src/typecheck.rs:1385-1404 | A callable counts as effectful exactly when one of the names it is looked up by has an effect now. |
| Effects.LookedUpIs | src/typecheck.rs:1385-1404 | The names looked up are exactly the references of the callable outside of inline evaluations, guards, values and operands. |
| Effects.AllIsLookedUp | src/typecheck.rs:1385-1404 | So a callable without those is looked up by every reference it has: the nodes its stages call, map, filter, fold or repeat, and the targets of its arms. |
| Effects.Checker.Round | src/typecheck.rs:1357-1383 | One round never takes an effect back and finds only reachable effects; if it changes anything, fewer callables are pending, and if not, nothing is left to find. |
| Effects.Checker.InferEffects | src/typecheck.rs:1357-1411 | Ends after at most one round more than there are callables without an effect; then a symbol has an effect exactly when calls lead from it to a symbol that had one at the start. |
| Effects.EffectsAreCompleteIff | src/typecheck.rs:1385-1404 | The lookup leads to the effects of all calls the callables make exactly when every callable that refers to something leading to an effect leads to one itself; both sides are about the table at the start. |
| Effects.InlineEffectsAreMissed | src/typecheck.rs:1385-1404 | It does not for a call inside an inline evaluation: the callable performs the effect and does not lead to it, in every table where the called node has the effect and the callable has none. |
| TypeResolver.TypeResolver.Open | src/typecheck.rs:1138-1163 | Pushes a name on the stack of open names; what is left to open gets fewer. |
| TypeResolver.TypeResolver.Close | src/typecheck.rs:1138-1163 | Pops it and memoises its full unfolding. |
| TypeResolver.TypeResolver.ResolveTypeAlias | src/typecheck.rs:1138-1163 | Returns the full unfolding of an alias and memoises it; fails only when the declarations are defective. |
| TypeResolver.TypeResolver.ResolveStructType | src/typecheck.rs:1165-1214 | The same for a struct. |
| TypeResolver.TypeResolver.ResolveFields | src/typecheck.rs:1165-1214 | Resolves the fields of a struct in order; no field name occurs twice. |
| TypeResolver.TypeResolver.ResolveTypeAliasType | src/typecheck.rs:1216-1301 | Unfolds every name in a type; a name on the stack is a cycle. |
| TypeResolver.TypeResolver.ValidateDeclaredType | src/typecheck.rs:1508-1540 | Decides whether a type has a representation: no union, no open name, streams only when they are imported, nothing but known types. |
| TypeResolver.TypeResolver.Accept | src/typecheck.rs:1083-1136 | Enters a resolved name whose type has a representation; refuses one only if some name has none whatever the order. |
| TypeResolver.TypeResolver.ResolveAll | src/typecheck.rs:1083-1136 | Succeeds exactly when no annotation is malformed, no field is doubled, no name is unknown or on a cycle, and every name stands for a type with a representation; then every entry of the table is the full unfolding of its name, whatever the order of the visits. |
| TypeResolver.ResolveDeclarations | src/typecheck.rs:1083-1136 | Also fails exactly when a name is declared twice or is one of the known types. |
| TypeDeclarations.AcceptsSame | src/typecheck.rs:1508-1540 | Types that were accepted do not make others acceptable, so the order in which names are checked does not matter. |
| DeclaredTypes.UnfoldedIff | src/typecheck.rs:1138-1301 | Unfolding gives a type exactly when that is the written one with what each name stands for in its place: items, fields and alternatives in order, each field under its own name; and fails exactly when there is none through so many declarations. |
| DeclaredTypes.AcceptedIff | src/typecheck.rs:1508-1540 | A type has a representation exactly when everything it is made of may stand: no open name, no union, no scalar that is unknown, and no stream unless they are imported. |
| TypeDeclarations.UnfoldingIsUnique | src/typecheck.rs:1083-1301 | A name has one unfolding, so it does not depend on the order of resolution or the memo table. |
| TypeDeclarations.CyclesDoNotUnfold | src/typecheck.rs:1138-1214 | A name on a cycle of declarations has no unfolding of any depth. |
| TypeDeclarations.UnfoldedIsSound | src/typecheck.rs:1083-1301 | If every declared name unfolds, the declarations have no defect. |
| Checking.CheckChain | src/typecheck.rs:1613-1690 | The loop over the stages of a chain returns the environment after it, or fails; what that environment is and when there is none is `TypingRules.ChainsDecided` and `TypingRules.GivenIsChecked`. |
| Checking.TypeChain | src/typecheck.rs:544-572 | The loop of the other checker returns the typed chain as well; that it is the same chain with its types is `AnnotatedGraphs.CallableMirrored`. |
| CheckersAgree.EndpointsAgree | src/typecheck.rs:729-816 | Both checkers accept the same endpoints with the same type, and in the typed endpoint every part fits its neighbours. |
| CheckersAgree.InlineAgrees | src/typecheck.rs:818-874 | The same for inline stages. |
| CheckersAgree.StagesAgree | src/typecheck.rs:574-727 | The same for every stage of a chain that hands a value on. |
| CheckersAgree.ArmsAgree | src/typecheck.rs:876-971 | The same for the arms of a match: same guards refused, same common type. |
| CheckersAgree.ChainStagesAgree | src/typecheck.rs:1613-1690 | The same for the stages of a chain, the last of which may bind names. |
| CheckersAgree.ChainsAgree | src/typecheck.rs:544-572 | The same for all chains of a callable, with equal environments at the end. |
| CheckersAgree.CallablesAgree | src/typecheck.rs:445-542 | The typed checker accepts a callable exactly when the other does and the callable has a signature in the symbol table, with equal final environments; the typed graph is linked. |
| TypingRules.SequenceItemsAreLeastBound | src/types.rs:130-143 | For items that are no faults around faults: a sequence literal has a type exactly when some type takes all its items, and it is then the least of those, which is the type of one of the items. |
| TypingRules.TargetTypesAre | src/typecheck.rs:2378-2431 | A target takes a type apart exactly when its tuples stand where the type has tuples, or faults around tuples, of the same length; then each name gets the type at its own place, with a fault around it below a fault, if it has none. |
| TypingRules.BindsDecided | src/typecheck.rs:2378-2431 | A target binds exactly when it fits, its names are new and differ, and their types are known; then these names and no others are added. |
| DeclaredTypes.EmptySeqIsWithin | src/types.rs:201-209 | A type needs a context exactly when the type of the empty sequence stands in it somewhere, at any depth. |
| TypingRules.EndpointDecided | src/typecheck.rs:1692-1736 | An endpoint is given a type exactly when the typing rules do; they are a relation that names no checker. |
| TypingRules.StageDecided | src/typecheck.rs:1613-1690 | The same for a stage and the types of what it takes and hands on. |
| TypingRules.MatchDecided | src/typecheck.rs:2287-2355 | The same for a match: every guard answers with a truth value for the value and its arguments, only the last arm is a fallback, and the arms have a common type. |
| TypingRules.ChainsDecided | src/typecheck.rs:1613-1690 | When the chains of a callable are accepted, there are environments, one after each chain, each following from the one before by the rules. |
| TypingRules.GivenIsChecked | src/typecheck.rs:1613-1690 | Conversely chains with such environments are accepted, with the last of them. |
| TypingRules.CallableAcceptedIff | src/typecheck.rs:1542-1583 | A callable is accepted exactly when the types of its names can be written down, chain after chain, so that inputs, every endpoint, stage and binding, and the outputs keep the rules; and the types found are those. |
| TypeSafety.TargetKeepsTypes | src/typecheck.rs:2378-2431 | Taking a value of a type apart succeeds exactly when the names are new and differ, and gives each name a value of the type it is bound with. |
| TypeSafety.DestructuringKeepsTypes | src/typecheck.rs:2378-2431 | From no names: exactly the names of the target, each with a value of its type. |
| TypeSafety.PortsHaveNoNestedFault | src/typecheck.rs:2392-2413 | No name of a type without a fault directly around a fault gets such a type, though what is below a fault becomes a fault. |
| TypeSafety.PortsBound | src/typecheck.rs:1624-1633 | Names are bound exactly when they are new, differ, and have no type with an empty sequence in it; then each has its type and the others keep theirs. |
| TypeSafety.InputsDeclared | src/typecheck.rs:1552-1562 | Inputs are declared exactly when their types are and their names differ. |
| TypeSafety.OutputsFitIff | src/typecheck.rs:1569-1580 | Outputs are accepted exactly when each is bound and its declared type takes the type it is bound with. |
| TypeSafety.EndpointKeepsType | src/typecheck.rs:729-816 | Running a typed endpoint returns, if anything, a value of its type. |
| TypeSafety.CallableKeepsTypes | src/typecheck.rs:445-542 | A callable that type-checks, run on an argument of the type of its inputs, returns, if it returns anything and its nodes keep to their types, values of the types its outputs are bound with, which their declared types take. |
| AnnotatedGraphs.EndpointMirrored | src/typecheck.rs:729-816 | The typed endpoint is the endpoint, part by part, with types added. |
| AnnotatedGraphs.CallableMirrored | src/typecheck.rs:445-542 | The typed graph of a callable is the callable: the same names, ports with their declared types, and the same chains, stages, arms and operands in the same order, with the symbols of the names. |
| ImportGraph.PathIsEmitted | src/module_resolver.rs:229-335 | If every unit comes after those it imports, everything on an import path from the root is emitted. |
| ImportGraph.PathGoesBack | src/module_resolver.rs:229-335 | Along an import path the units come earlier and earlier, so no path comes back. |
| ImportGraph.EmittedIsSound | src/module_resolver.rs:136-201 | Such units leave nothing broken, unknown or cyclic within reach. |
| ImportResolver.AddNames | src/module_resolver.rs:303-326 | Adds the names of one import clause to the references: the listed ones, or all under the alias; fails on a missing or doubled name. |
| ImportResolver.Resolver.ExpandModule | src/module_resolver.rs:229-475 | Emits the modules below one import and the module itself, or finds it in the table; fails only when something within reach is unresolvable, a cycle included. |
| ImportResolver.Resolver.ImportAll | src/module_resolver.rs:364-475 | Expands each import of an open module before its names are taken. |
| ImportResolver.Resolver.Finish | src/module_resolver.rs:229-335 | Closes a module: its exports go into the table and its declarations behind all emitted before; what its exports stand for is `ImportedNames.ImportedNamesAreDeclared`. |
| ImportResolver.Resolver.ResolveSources | src/module_resolver.rs:115-201 | Ends on every import graph; succeeds exactly when the root's names do not clash and nothing within reach is unresolvable or on a cycle, and then every module within reach is emitted exactly once, after the modules it imports, and every name that an emitted module or the main file imports from another stands for what that one declares under it. |
| ImportedNames.ImportAdded | src/module_resolver.rs:303-326 | The names of an import can be added exactly when its module has all that are asked for, under different names, and none is taken; then exactly they are added, each standing for what the module offers under it: its own name, its `as` name or the alias with a dot. |
| ImportedNames.ImportsAdded | src/module_resolver.rs:290-326 | The same for a list of imports, one after the other. |
| ImportedNames.RootAddsImports | src/module_resolver.rs:136-201 | The main file adds the imports of other source modules in the same way and leaves those of built-in modules to be resolved later. |
| ImportedNames.ImportedNamesAreDeclared | src/module_resolver.rs:229-335 | Imports never dangle: if a module or the main file imports an export that the other module declares, the name it gets stands for exactly the name of that declaration where it is emitted. |
| ImportedNames.ImportsFitIff | src/module_resolver.rs:229-335 | When the imports of a module can be brought in together, in terms of the modules alone: all there, no missing name, and no name that is the module's own or brought in twice. |
| ImportedNames.BuiltinNamesStand | src/module_resolver.rs:615-659 | A symbol imported from a built-in module stands under the alias of its own import. |
| ImportedNames.AliasesDiffer | src/module_resolver.rs:615-659 | No two imports of one module share such an alias. |
| ImportedNames.NamesMergeIff | src/module_resolver.rs:944-962 | Two declarations of any modules get one name exactly when module and name together differ in nothing but characters that become underscores. |
| ImportedNames.ModulesMayMerge | src/module_resolver.rs:944-962 | So files whose paths differ in a sign only give every node the same name. |
| ByteRuntime.IndexOf | src/stdlib/bytes.c:36-44 | The first place where the needle occurs, as a signed 64-bit number that may have wrapped around; -1 exactly when there is none. |
| ByteRuntime.LastIndexOf | src/stdlib/bytes.c:46-56 | The last such place in the same way; refused exactly for the empty needle in a text whose length is no signed 64-bit number. |
| ByteRuntime.CountMatches | src/stdlib/bytes.c:148-160 | The first pass counts the matches that do not overlap, from the left. |
| ByteRuntime.SplitCounts | src/stdlib/bytes.c:148-179 | There is one part more than matches, so the second pass fills exactly the slots the first counted. |
| ByteRuntime.SplitOn | src/stdlib/bytes.c:148-179 | Refuses exactly the empty delimiter; else the array holds the parts, in order, in every slot. |
| ByteRuntime.FillParts | src/stdlib/bytes.c:163-178 | The second pass fills each slot once and none is left. |
| ByteRuntime.JoinedLength | src/stdlib/bytes.c:204-216 | The checked sum of lengths is the length of the joined text, or an overflow exactly when that does not fit 64 bits. |
| ByteRuntime.JoinBytes | src/stdlib/bytes.c:204-227 | Refuses exactly when the joined text and its final zero do not fit; else the buffer holds them, in the computed length. |
| ByteRuntime.ReplaceLength | src/stdlib/bytes.c:87-119 | The length computed from the number of matches is that of the replaced text. |
| ByteRuntime.ReplacedLength | src/stdlib/bytes.c:87-103 | The checked length of the replaced text; what is taken out never overflows. |
| ByteRuntime.Replace | src/stdlib/bytes.c:87-119 | Refuses exactly the empty needle and a text that does not fit; else the buffer holds the replaced text in exactly the computed length, and the final zero. |
| ByteRuntime.SplitMeans | src/stdlib/bytes.c:148-179 | Joining the parts with the delimiter restores the input, and each part ends at the first occurrence. |
| ByteRuntime.NoPartContains | src/stdlib/bytes.c:148-179 | No part contains the delimiter. |
| ByteRuntime.SplitUndoesJoinIff | src/stdlib/bytes.c:148-227 | Splitting gives a list of parts back from its join exactly when every part ends at the first occurrence of the delimiter. |
| ByteRuntime.ReplaceIsJoinOfSplit | src/stdlib/bytes.c:87-227 | Replacing equals joining the parts with the replacement. |
| ByteRuntime.ReplaceByItself | src/stdlib/bytes.c:87-119 | Replacing a needle by itself changes nothing. |
| Framing.LspClient.HandleData | editors/vscode/extension.js:192-219 | Appends the chunk, takes every complete message and leaves the rest in the buffer; the loop ends. |
| Framing.DrainInTwo | editors/vscode/extension.js:192-219 | Taking messages early and going on with more bytes is taking them all at once. |
| Framing.ChunksDoNotMatter | editors/vscode/extension.js:192-219 | For every division of a byte stream into chunks the same messages come out and the same bytes stay. |
| Framing.FrameIsTaken | editors/vscode/extension.js:186-219 | A sent frame in front of any bytes is taken as exactly its body. |
| Framing.SentMessagesArrive | editors/vscode/extension.js:186-219 | Any chunking of concatenated sent frames delivers the bodies in order and leaves nothing. |
| Framing.Reader.ReadMessage | src/lsp.rs:174-196 | Reads header lines up to the empty one and then the body; reports a closed stream and a cut body. |
| Framing.ServerReadsFrame | src/lsp.rs:174-196 | The server reads a client frame as its body and leaves the bytes behind it. |
| Headers.SeparatorFoundIff | editors/vscode/extension.js:192-219 | The client ends a header at the first empty line, and finds none exactly when there is none. |
| Headers.LengthFoundIff | editors/vscode/extension.js:186-219 | The client takes the number at the first place that names the field, in letters of either case, with blanks and digits behind it. |
| Headers.MessageReadIff | src/lsp.rs:174-196 | The server takes a message exactly when lines up to an empty one are followed by its body, and the last line with the field tells, in a number that fits 64 bits, how long that is. |
| JsonText.StringRead | src/lsp.rs:2168-2183 | Every string comes back from its escaped form, control characters included (RFC 8259, section 7). |
| JsonText.NumberRead | src/lsp.rs:520-542 | Every integer comes back from its digits. |
| JsonText.EscapeIsCharacterIff | src/lsp.rs:479-518 | A `\\u` escape is read as a character exactly when it is not half of a surrogate pair; halves are dropped. |
| JsonText.ValueRead | src/lsp.rs:359-387 | Every printed value in front of any text that does not go on with a number is read back, with that text left. |
| JsonText.JsonRoundTrip | src/lsp.rs:359-576 | Parsing printed JSON returns the same value, for every nesting (RFC 8259, sections 4, 5 and 7). |
| JsonGrammar.CharsRead | src/lsp.rs:479-518 | The characters of a string are read exactly when they are those of the grammar up to a closing quote: no control character is refused, escapes are those of RFC 8259, section 7, and half of a surrogate pair stands for nothing. |
| JsonGrammar.NumberIsRead | src/lsp.rs:520-542 | A number is read exactly when the grammar has one here that does not go on. |
| JsonGrammar.ValueIsRead | src/lsp.rs:414-427 | A value is read exactly when the grammar has one here, with the same text left; of two fields with one key the later one counts. |
| JsonGrammar.ReadIffJson | src/lsp.rs:405-412 | A text is accepted exactly when it is one JSON value of the grammar with blanks around it, and its value is that one. |
| JsonParser.WriteJsonString | src/lsp.rs:2168-2183 | The loop writes the escaped string. |
| JsonParser.JsonParser.Parse | src/lsp.rs:405-412 | Returns the value of a whole text, or fails when text is left over or it is no JSON. Exactly as the reading function the round trip is proved about. |
| JsonParser.JsonParser.Value | src/lsp.rs:414-427 | Reads the value its first character announces. Exactly as the reading function the round trip is proved about. |
| JsonParser.JsonParser.ObjectValue | src/lsp.rs:438-459 | Reads fields and keeps them ordered by key, the last one of a key winning. Exactly as the reading function the round trip is proved about. |
| JsonParser.JsonParser.ArrayValue | src/lsp.rs:461-477 | Reads items up to the bracket. Exactly as the reading function the round trip is proved about. |
| JsonParser.JsonParser.StringText | src/lsp.rs:479-518 | Reads a string and its escapes. Exactly as the reading function the round trip is proved about. |
| JsonParser.JsonParser.NumberText | src/lsp.rs:520-542 | Takes the longest number text. Exactly as the reading function the round trip is proved about. |

## Left out

- FormatProgram.FormattingPreservesProgramIff: nothing is said of sources with a kept comment that leaves a string or block comment open, or only commas and parentheses, or with both a kept comment that is not skipped and annotations whose tokens run into each other; what is lost may be made up for there.
- Idempotence.FormattingIsIdempotentIff: nothing is said of sources whose annotations are not read back or whose kept comments are not skipped: their formatted text is no text of the same program.
- Tokens.Real: the value of a real literal is its decimal text; conversion to floating point is left out.
- Parser.Parser.ParseModule: no positions and no wording of errors; a failure is one result.
- NodeRefs.RefTextIsInjective: node references are structures with a base path and arguments, where the source keeps their text.
- Expansion.ExpansionPreservesMeaning: the interpreter has no faults lifted over calls; GraphRun has them, for the scalar part of the language.
- GpuMeaning.KernelShaderMeansCallable: nothing is said of runs that return a fault or of values a kernel cannot take; the shader is a syntax tree, not characters, and the kernel's bounds checks and buffers are left out.
- SsaCorrect.EmittedCodeMeansGraph: goes one way, from graphs that have a value (SsaLimits.GraphHasValueIff says which); a match has none, because its arms are not emitted; the helpers of combinators are calls whose meaning is a parameter, comments in the instruction text are left out, and characters of symbol names are not sanitised.
- GpuReduce.DispatchReduceBuffer: no device limits and no failing allocations; `ensures` says when it may fail, not when the device does.
- TypeMatching.MatchIsLeast: patterns without unions and actual types without variables, unions or the empty sequence; MatchDemands has the empty sequence and MatchUnions both, complete when no union of the pattern holds a variable.
- Spacing.PartsAreSpaced: chains only; in headers and ports the blanks around type texts depend on the type.
- TypeSafety.CallableKeepsTypes: values of the scalar part of the language, as GraphRun runs it; the types of nodes are assumed to be kept by them (`NodesKeepTypes`).
- SsaTypes.UsesHaveTheirTypes: the count of a repeat is passed without a look at its type, as the source does.
- TypeResolver.TypeResolver.ResolveAll: the parser of type texts is a parameter: a text is a type or malformed; the types of ports (src/typecheck.rs:1451-1506) are left out.
- CheckersAgree.CallablesAgree: the rules for node calls and combinators (`apply_node`, `apply_map` and so on), which both checkers share, are parameters.
- Effects.Checker.InferEffects: symbols are named by their references instead of their texts.
- ImportResolver.Resolver.ResolveSources: reading files and normalising paths are parameters, and a rewritten declaration is represented by the references it is rewritten with.
- ByteRuntime.Replace: the input is shorter than the largest size, as every text with its final zero is; allocations do not fail.
- JsonText.JsonRoundTrip: numbers are integers; other numbers are kept as text and conversion to floating point is left out.
- Framing.ServerReadsFrame: the body is bytes; decoding it as text and the handling of a message are left out.
- `split_lines`, trimming, slicing and case conversion in src/stdlib/bytes.c: easy members beside those modelled.
- The device code other than the reduction, build caches, native linking, the C and TypeScript backends, the language server's hover, completion and definition, and the command line.
