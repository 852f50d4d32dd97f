# refactor-green-clang: rename and analysis logic

refactor-green-clang is a Clang tool that renames identifiers in C and C++ sources
and can also report on the functions and variables a file uses. This project models,
in Dafny, the decision logic the tool puts on top of Clang. It proves what that logic
does to its state, to the edits it asks of the rewriter and to the reports it prints.

The model has four parts, one per source file:

- **`CommandLine`** (`command_line.dfy`, `src/main.cc`):
  - `parseRenameCommand` recognises `tool rename <old>[:<line>] <new> ...`, splits the old name at its first colon and checks the line suffix the way `strtol` and the `*endPtr` / `> 0` test do.
  - It fills the global `CommandOptions` field by field, so a rejected line number leaves `isRenameCommand` and `oldName` already written.
  - `main` then passes on the argument list without the three rename words.
- **`LineRename`** (`line_rename.dfy`, `src/transformer/renametransformer.cc`):
  - The line-filtered `RenameTransformer` has five name matchers and the else-if chain of `run`.
  - `shouldRename` lets every line through when the target is -1; otherwise it compares the spelling line with the target line cast to unsigned.
  - Recorded labels go into a `std::set`, and `print` writes the report.
- **`TypedRename`** (`typed_rename.dfy`, `src/transformer/rename_transformer.cc`):
  - The typed `RenameTransformer`'s `start` registers matchers according to the rename type.
  - `run` dispatches to the three `handle*Rename` methods, which rewrite and count.
  - `print` writes a three-line report.
- **`Comprehensive`** (`comprehensive.dfy`, `src/transformer/comprehensive_transformer.cc`):
  - Calls are classified as builtin, implicit/system or user-defined.
  - `fn_` is inserted at every user call, and at the definition the first time a function is seen. "Definition" is the source's word: the insertion goes at the location of the declaration the call resolved to (`getDirectCallee()->getLocation()`), which may be a prototype rather than the definition.
  - Variables are recorded, and `print` writes a sectioned report.

Three shared modules support them:

- `Ast` (`ast.dfy`): the Clang nodes, as plain records of what the transformers ask of them.
- `Rewriting` (`rewriting.dfy`): the `Rewriter`, as an append-only log of the edits requested.
- `Text` (`text.dfy`):
  - `std::set<std::string>` as a strictly increasing sequence, which is the set's iteration order.
  - Decimal formatting.
  - Lines of text.

**Matching.** `matchAST` is modelled as a loop over the tree's nodes in traversal order. Inside it, a loop over the registered matchers calls `run` with the node bound to the matcher's name whenever the matcher matches. Each class's `Start` runs this loop for real: it updates the object's fields and the rewriter's log in place. Its postcondition ties the new state to a fold over the nodes (`TreeOccurrences`, `Renames`, `TreeOutcome`), and the whole-run lemmas are proved about that fold.

**Parameters in `LineRename`.** A parameter named like the old name is matched twice in the line-filtered transformer: by `varDecl(...)` and by `parmVarDecl(...)`. It is therefore replaced twice at the same location and recorded under two labels. The model keeps this behaviour (`ParameterMatchedTwice`).

## Model

| member | source | states |
|---|---|---|
| CommandLine.CommandOptions.constructor | src/consumer/consumer.h:15-21 | a fresh options record is not a rename command, has empty names and target line -1 |
| CommandLine.StrToL | src/main.cc:41-42 | `end` is where the decimal digits after the leading white space and one optional sign run out, and 0 exactly when no digit follows them (the value is then 0); only white space, a sign and digits lie before `end`; the value is those digits' value, negated exactly when the sign is '-' |
| CommandLine.StrToLReadsWholeRun | src/main.cc:41-42 | strtol reads a whole digit run and stops right after it: "12" gives 12 with `end` at 2, "1 2" gives 1 with `end` at 1, and "+-5" reads nothing |
| CommandLine.ParseLineNumber | src/main.cc:41-47 | an accepted line is positive and is the value strtol read |
| CommandLine.ParseLineNumberShape | src/main.cc:41-47 | a suffix is accepted exactly when it is white space, an optional '+', and digits with a positive value reaching the end or a NUL; the line is then the value of those digits |
| CommandLine.AcceptedHasLineForm | src/main.cc:41-47 | an accepted suffix has the accepted shape, with its bounds where strtol's scan stops |
| CommandLine.LineFormUnique | src/main.cc:42 | in an accepted suffix, the white space, the sign and the digits end where strtol's scan stops |
| CommandLine.SpacedLineAccepted | src/main.cc:41-48 | " 7" is line 7 |
| CommandLine.SignedLineAccepted | src/main.cc:41-48 | "+7" is line 7 |
| CommandLine.PaddedLineAccepted | src/main.cc:41-48 | "007" is line 7 |
| CommandLine.EmptyLineRejected | src/main.cc:43-47 | an empty suffix (`name:`) is rejected |
| CommandLine.ZeroLineRejected | src/main.cc:43-47 | digits worth zero ("0", "000") are rejected |
| CommandLine.NegativeLineRejected | src/main.cc:43-47 | a '-' followed by digits is rejected |
| CommandLine.ParseLineNumberOfNatToString | src/main.cc:41-48 | every positive line number written in decimal is accepted and read back as itself |
| CommandLine.ColonInLineRejected | src/main.cc:34-47 | a suffix containing another colon (as in `name:1:2`) is rejected |
| CommandLine.TrailingJunkRejected | src/main.cc:43-47 | an empty suffix or one whose last character is not a digit is rejected |
| CommandLine.SplitAtColon | src/main.cc:33-38 | the name is the text before the first colon and holds none; the suffix is everything after it; joining them gives the argument back; with no colon the name is the whole argument |
| CommandLine.ParseRename | src/main.cc:21-58 | fewer than four arguments or a command other than `rename`: false, options untouched; otherwise the flag and old name are written; true exactly when there is no colon or the suffix parses; on success the new name is `argv[3]` and the target line is the parsed value or unchanged; on a bad line only the flag and old name changed |
| CommandLine.ParsedTargetLine | src/main.cc:30-55 | from the defaults, a successful parse leaves target line -1 or a positive line, positive exactly when the old-name argument has a colon |
| CommandLine.ParseRenameRoundTrip | src/main.cc:21-58 | a rename command written out from a colon-free name, an optional line and a new name parses back to exactly those values |
| CommandLine.ParseRenameCommand | src/main.cc:21-58 | the result and the options written in place equal `ParseRename` of the options before the call |
| CommandLine.CompactArguments | src/main.cc:68-74 | the new list is `argv[0]` followed by `argv[4..]`, and its count is `argc - 3` |
| CommandLine.MainArguments | src/main.cc:63-75 | after a successful parse the arguments passed on are the compacted list; otherwise they are argv unchanged; the options are those `ParseRename` gives |
| LineRename.Category.Label | src/transformer/renametransformer.cc:57-101 | each of the five labels is a single line |
| LineRename.ClassifyFirstBinding | src/transformer/renametransformer.cc:51-103 | `run` is about no node exactly when none of the five bindings is present; otherwise it is about the bound node of the first branch whose binding is present, and every earlier binding is absent |
| LineRename.CallbackClassified | src/transformer/renametransformer.cc:38-103 | `run` on the result of any of the five matchers takes that matcher's branch, at the matched node's location |
| LineRename.ParameterMatchedTwice | src/transformer/renametransformer.cc:24-42 | a parameter with the old name is reported twice at its location, first as a variable declaration and then as a parameter declaration |
| LineRename.OtherNodesMatchedOnce | src/transformer/renametransformer.cc:24-42 | any other node is reported at most once, exactly when it is a variable, function, reference or member with the old name |
| LineRename.Record | src/transformer/renametransformer.cc:57-101 | recording labels keeps the category set a set |
| LineRename.RecordElems | src/transformer/renametransformer.cc:57-101 | the category set only grows, and gains exactly the labels of the recorded occurrences |
| LineRename.RecordAppend | src/transformer/renametransformer.cc:57-101 | recording two batches in turn is recording them together |
| LineRename.ReportLinesNoNewline | src/transformer/renametransformer.cc:106-125 | with newline-free names and only the five labels in the set, no report line holds a newline |
| LineRename.RenameTransformer.constructor | src/transformer/renametransformer.cc:12-17 | the names and target line are stored and the category set is empty |
| LineRename.RenameTransformer.ShouldRename | src/transformer/renametransformer.cc:127-137 | target line -1 accepts every location; a positive target line accepts exactly its own line; any other negative target line (cast to a huge unsigned value) accepts no line below 2^31 |
| LineRename.RenameTransformer.Accepted | src/transformer/renametransformer.cc:54-98 | with target line -1 every occurrence is kept; never more occurrences than given |
| LineRename.RenameTransformer.AcceptedMembers | src/transformer/renametransformer.cc:54-98 | an occurrence is kept exactly when it is given and `shouldRename` accepts its location |
| LineRename.RenameTransformer.RenameEdits | src/transformer/renametransformer.cc:56-100 | one edit per occurrence, in order, each replacing `|oldName|` characters at the occurrence's location by `newName` |
| LineRename.RenameTransformer.AcceptedRenames | src/transformer/renametransformer.cc:54-100 | every edit of a run replaces `|oldName|` characters by `newName` at a location `shouldRename` accepts |
| LineRename.RenameTransformer.AcceptedAppend | src/transformer/renametransformer.cc:54-98 | filtering two batches in turn is filtering them together |
| LineRename.RenameTransformer.RenameEditsAppend | src/transformer/renametransformer.cc:56-100 | the edits of two batches are those of the first followed by those of the second |
| LineRename.RenameTransformer.RenameEditsSnoc | src/transformer/renametransformer.cc:54-101 | one more callback adds one replacement of `|oldName|` characters by `newName` at its location exactly when it has a node that `shouldRename` accepts |
| LineRename.RenameTransformer.RecordSnoc | src/transformer/renametransformer.cc:54-101 | one more callback inserts its label exactly when it has a node that `shouldRename` accepts |
| LineRename.RenameTransformer.OccurrencesAppend | src/transformer/renametransformer.cc:47-104 | the edits and labels of two batches of callbacks are those of the first batch followed by those of the second |
| LineRename.RenameTransformer.Run | src/transformer/renametransformer.cc:47-104 | a callback with no binding, or whose location `shouldRename` rejects, changes neither the edits nor the set; otherwise it appends one replacement of `|oldName|` characters by `newName` and inserts the branch's label |
| LineRename.RenameTransformer.Dispatch | src/transformer/renametransformer.cc:38-44 | a matcher's callback does what the matcher's occurrence calls for |
| LineRename.RenameTransformer.MatchNode | src/transformer/renametransformer.cc:38-44 | visiting one node appends the edits of its accepted occurrences and records their labels |
| LineRename.RenameTransformer.MatchAST | src/transformer/renametransformer.cc:44 | visiting the tree appends one edit per accepted occurrence in traversal order and records exactly their labels |
| LineRename.RenameTransformer.Start | src/transformer/renametransformer.cc:19-45 | with the five matchers in their order, the edits and the set are those of the accepted occurrences of the whole tree |
| LineRename.RenameTransformer.Print | src/transformer/renametransformer.cc:106-125 | the text is the report's lines: `No occurrences of '<old>' found`, with ` on line <N>` only when the target is not -1, then `.`; or `Renamed '<old>' to '<new>' in:` and one `  - <label>` per label in set order; with newline-free names the text splits back into exactly those lines |
| TypedRename.Finder | src/transformer/rename_transformer.cc:20-39 | "function" registers the call and function-declaration matchers, "variable" the variable-declaration and reference matchers, any other type none |
| TypedRename.NodeMatches | src/transformer/rename_transformer.cc:41 | the callbacks for a node come from exactly the registered matchers that match it, never more than are registered |
| TypedRename.NodeMatchesOfTwo | src/transformer/rename_transformer.cc:24-38 | with two matchers registered, a node's callbacks come from the first matcher, then the second, each when it matches |
| TypedRename.ReportLinesNoNewline | src/transformer/rename_transformer.cc:122-128 | with newline-free names and type, the three report lines hold no newline |
| TypedRename.RenameTransformer.constructor | src/transformer/rename_transformer.cc:8-12 | the names and type are stored and the count starts at 0 |
| TypedRename.RenameTransformer.FunctionRenameEdit | src/transformer/rename_transformer.cc:60-83 | a bound call is renamed over its callee's range exactly when its direct callee has the old name (no direct callee: nothing); otherwise a bound function declaration is renamed at its location exactly when it has the old name; every edit writes the new name |
| TypedRename.RenameTransformer.VariableRenameEdit | src/transformer/rename_transformer.cc:85-100 | a bound variable declaration is renamed at its location exactly when it is outside a system header and has the old name |
| TypedRename.RenameTransformer.VariableRefRenameEdit | src/transformer/rename_transformer.cc:102-120 | a bound reference is renamed at its location exactly when it refers to a variable outside a system header with the old name |
| TypedRename.RenameTransformer.MatcherEdit | src/transformer/rename_transformer.cc:20-39 | a matcher's node is renamed to the new name exactly when the matcher matches, unless the node is a variable (or a reference to one) declared in a system header |
| TypedRename.RenameTransformer.CallbackEdit | src/transformer/rename_transformer.cc:44-120 | `run` on a registered matcher's result makes the edit the matcher calls for |
| TypedRename.RenameTransformer.NodeEditsOfTwo | src/transformer/rename_transformer.cc:24-38 | with two matchers, a node's edits are the first matcher's then the second's |
| TypedRename.RenameTransformer.NodeEditsWriteNewName | src/transformer/rename_transformer.cc:70-115 | every edit for a node writes the new name |
| TypedRename.RenameTransformer.RenamesWriteNewName | src/transformer/rename_transformer.cc:70-115 | every edit of a whole run writes the new name |
| TypedRename.RenameTransformer.UnknownTypeRenamesNothing | src/transformer/rename_transformer.cc:20-41 | a type other than "function" and "variable" renames nothing, so the count stays where it was |
| TypedRename.RenameTransformer.FunctionRenamesEveryMatch | src/transformer/rename_transformer.cc:20-29 | with type "function" every match (call or declaration) is renamed: as many edits as matches |
| TypedRename.RenameTransformer.VariableRenamesOutsideSystemHeaders | src/transformer/rename_transformer.cc:85-120 | with type "variable" a node gets one edit when it is a matching variable or reference outside a system header, none otherwise |
| TypedRename.RenameTransformer.HandleFunctionRename | src/transformer/rename_transformer.cc:60-83 | appends the function edit, if any, and adds its number to the count |
| TypedRename.RenameTransformer.HandleVariableRename | src/transformer/rename_transformer.cc:85-100 | appends the variable edit, if any, and adds its number to the count |
| TypedRename.RenameTransformer.HandleVariableRefRename | src/transformer/rename_transformer.cc:102-120 | appends the reference edit, if any, and adds its number to the count |
| TypedRename.RenameTransformer.Run | src/transformer/rename_transformer.cc:44-58 | the first binding present among call or function declaration, variable declaration and reference picks the handler; the count grows by exactly the number of edits |
| TypedRename.RenameTransformer.Dispatch | src/transformer/rename_transformer.cc:24-38 | a matcher's callback makes the matcher's edit and counts it |
| TypedRename.RenameTransformer.MatchNode | src/transformer/rename_transformer.cc:41 | one node's edits are appended and counted |
| TypedRename.RenameTransformer.MatchAST | src/transformer/rename_transformer.cc:41 | the whole tree's edits are appended in traversal order and counted |
| TypedRename.RenameTransformer.Start | src/transformer/rename_transformer.cc:14-42 | with the matchers of the rename type, the edits are those of the run and the count grows by exactly their number, so it never decreases |
| TypedRename.RenameTransformer.Print | src/transformer/rename_transformer.cc:122-128 | the text is exactly the three report lines, and splits back into them when the names and type are newline-free |
| Comprehensive.FunctionCall | src/transformer/comprehensive_transformer.cc:51-91 | handling a call keeps the sets sets and keeps the id map's keys equal to the builtin set |
| Comprehensive.FunctionCallRewrites | src/transformer/comprehensive_transformer.cc:57-88 | only a user call (direct, non-builtin, not implicit, not in a system header) gets edits: `fn_` at the call, then `fn_` at the definition exactly when the name was not yet recorded; afterwards the name is recorded; other calls leave the user functions alone |
| Comprehensive.FunctionCallBuiltins | src/transformer/comprehensive_transformer.cc:66-72 | a builtin call records its name with its id (last write wins, other ids kept) and makes no edit; other calls leave builtins and ids alone; variables are never touched |
| Comprehensive.VariableDecl | src/transformer/comprehensive_transformer.cc:93-112 | a declaration's name joins the variables unless it lies in a system header or is empty; nothing else changes |
| Comprehensive.Callback | src/transformer/comprehensive_transformer.cc:35-49 | every callback keeps the state's invariant |
| Comprehensive.MatcherOutcome | src/transformer/comprehensive_transformer.cc:20-30 | a matcher that does not match changes nothing |
| Comprehensive.CallbackClassified | src/transformer/comprehensive_transformer.cc:35-49 | `run` on a matcher's result takes that matcher's branch; a reference changes nothing |
| Comprehensive.OneCallbackPerNode | src/transformer/comprehensive_transformer.cc:20-32 | the three matchers match disjoint nodes, so each node's effect is that of at most one handler |
| Comprehensive.TreeOutcomeSnoc | src/transformer/comprehensive_transformer.cc:32 | a run over one more node is the earlier run followed by that node's one handler |
| Comprehensive.UserFunctionsRecorded | src/transformer/comprehensive_transformer.cc:80-88 | after a run the user functions are those before plus the callee of every user call |
| Comprehensive.BuiltinsRecorded | src/transformer/comprehensive_transformer.cc:66-72 | after a run the builtins, and the keys of the id map, are those before plus the callee of every builtin call |
| Comprehensive.VariablesRecorded | src/transformer/comprehensive_transformer.cc:99-107 | after a run the variables are those before plus every named variable or parameter outside system headers |
| Comprehensive.DefinitionEditCount | src/transformer/comprehensive_transformer.cc:81-88 | a run makes one edit per user call plus one per prefixed definition |
| Comprehensive.EditsAtMostTwicePerUserCall | src/transformer/comprehensive_transformer.cc:81-88 | a run makes at most two edits per user call: the call's prefix and at most one definition prefix |
| Comprehensive.DefinitionNamesNew | src/transformer/comprehensive_transformer.cc:83-87 | the prefixed definitions are exactly those of functions called by user calls and not recorded before the run |
| Comprehensive.DefinitionsPrefixedOnce | src/transformer/comprehensive_transformer.cc:83-87 | no function's definition is prefixed twice, however often it is called |
| Comprehensive.FirstCallPrefixesDefinition | src/transformer/comprehensive_transformer.cc:83-87 | the first user call of a function not recorded before gets `fn_` inserted at the callee's declaration location (the definition, in the source's words) |
| Comprehensive.LastCallPrefixesDefinition | src/transformer/comprehensive_transformer.cc:83-87 | the same, for the last node of a run |
| Comprehensive.EditsArePrefixInsertions | src/transformer/comprehensive_transformer.cc:81-86 | every edit inserts `fn_` |
| Comprehensive.EveryUserCallPrefixed | src/transformer/comprehensive_transformer.cc:81 | every user call has `fn_` inserted at its start |
| Comprehensive.UserCallCount | src/transformer/comprehensive_transformer.cc:81 | the count is the number of positions holding a user call; it is 0 exactly when no node is a user call, and the number of nodes exactly when every node is one |
| Comprehensive.UserCalleesAtMostCalls | src/transformer/comprehensive_transformer.cc:81 | no more functions are called by user calls than there are user calls |
| Comprehensive.SectionLinesAt | src/transformer/comprehensive_transformer.cc:138-150 | line k of each section names the k-th element of its set, builtins with their ids |
| Comprehensive.ReportHeadings | src/transformer/comprehensive_transformer.cc:135-153 | the report has the header first, the footer last, and each section's heading where it belongs, giving the size of its set |
| Comprehensive.ReportFunctionEntries | src/transformer/comprehensive_transformer.cc:137-139 | every user function has its own line `  <name>()`, in set order |
| Comprehensive.ReportBuiltinEntries | src/transformer/comprehensive_transformer.cc:141-145 | every builtin has its own line `  <name>() [ID: <id>]`, in set order, with the id recorded for it |
| Comprehensive.ReportVariableEntries | src/transformer/comprehensive_transformer.cc:147-151 | every variable has its own line `  <name>`, in set order |
| Comprehensive.ReportLinesNoNewline | src/transformer/comprehensive_transformer.cc:133-154 | with newline-free names no report line holds a newline |
| Comprehensive.ReportText | src/transformer/comprehensive_transformer.cc:133-154 | the report text is the header, each section's heading after an empty line and its entries, then an empty line and the footer |
| Comprehensive.ComprehensiveTransformer.constructor | src/transformer/comprehensive_transformer.cc:9-12 | the sets and the id map start empty |
| Comprehensive.ComprehensiveTransformer.HandleFunctionCall | src/transformer/comprehensive_transformer.cc:51-91 | the fields and the edits after the call are those `FunctionCall` gives, and nothing happens without a bound call |
| Comprehensive.ComprehensiveTransformer.HandleVariableDecl | src/transformer/comprehensive_transformer.cc:93-112 | the fields after the call are those `VariableDecl` gives |
| Comprehensive.ComprehensiveTransformer.HandleVariableRef | src/transformer/comprehensive_transformer.cc:114-131 | nothing changes, neither the fields nor the edits |
| Comprehensive.ComprehensiveTransformer.Run | src/transformer/comprehensive_transformer.cc:35-49 | the new fields and edits are those `Callback` gives |
| Comprehensive.ComprehensiveTransformer.Dispatch | src/transformer/comprehensive_transformer.cc:20-30 | a matcher's callback does what the matcher calls for |
| Comprehensive.ComprehensiveTransformer.MatchNode | src/transformer/comprehensive_transformer.cc:32 | one node's callbacks, matcher by matcher |
| Comprehensive.ComprehensiveTransformer.MatchAST | src/transformer/comprehensive_transformer.cc:32 | the whole tree's callbacks, node by node |
| Comprehensive.ComprehensiveTransformer.Start | src/transformer/comprehensive_transformer.cc:14-33 | with the three matchers in their order, the fields and edits after the run are those of the run over the tree |
| Comprehensive.ComprehensiveTransformer.WriteFunctionLines | src/transformer/comprehensive_transformer.cc:138-139 | the loop writes one line per user function |
| Comprehensive.ComprehensiveTransformer.WriteBuiltinLines | src/transformer/comprehensive_transformer.cc:142-145 | the loop writes one line per builtin, with its id |
| Comprehensive.ComprehensiveTransformer.WriteVariableLines | src/transformer/comprehensive_transformer.cc:148-151 | the loop writes one line per variable |
| Comprehensive.ComprehensiveTransformer.Print | src/transformer/comprehensive_transformer.cc:133-154 | the text is the report's lines, and splits back into exactly those lines when the names are newline-free |

## Left out

- **Clang's matching machinery** (`MatchFinder`, the matcher DSL, `matchAST`): the tree is an input sequence of nodes in traversal order, and each matcher is a predicate over one node.
- **Node queries** (`getNodeAs`, `getDirectCallee`, `getBuiltinID`, `isImplicit`, `getLocation`, `getSpellingLineNumber`, `isInSystemHeader`): these are fields of the node records.
- **Applying edits to the buffer**: the `Rewriter`'s own application of edits to source text is not modelled, only the order of edit requests. What two replacements at the same location (`ParameterMatchedTwice`) do to the text is up to the rewriter.
- **Streams**: output to `llvm::outs()` and `llvm::errs()` is not modelled. The "Invalid line number" message at src/main.cc:45 is not modelled. `print` returns its text.
- **The rest of `main`**: the Clang tooling driver, file checks and compilation database (src/main.cc:77 onwards) are I/O. src/consumer/consumer.cc, src/actions/frontendaction.cc and src/transformer/transformer.h are not part of this model.
- CommandLine.StrToL: does not model overflow clamping to `LONG_MAX`/`LONG_MIN`. Integers are unbounded.
- CommandLine.ParseRename: does not model the `long` to `int` narrowing of the line number at src/main.cc:48. A line above 2^31-1 is kept as it is.
- TypedRename.RenameTransformer.Run: does not model the `int` overflow of `renameCount`. The count is unbounded.
- **Subscript default in `print`**: `builtin_ids[fn]` in `print` would insert a 0 entry for a missing name. The state invariant proves that no name is ever missing, so the model reads the entry without inserting.
- **Name lengths**: `oldName.length()` and `fromName.length()` count the bytes of a `std::string` (src/transformer/renametransformer.cc:56, src/transformer/rename_transformer.cc:79, 96, 115). The model counts characters, so one character stands for one byte. That holds for ASCII identifiers but not for identifiers with other characters.
- **Qualified names**: Clang's `hasName` also matches qualified names such as `ns::f`, but `LineRename.Matches` and `TypedRename.Matches` compare only the unqualified name, so names containing `::` are outside the model. The old name parsed at src/main.cc:33-38 has no colon. The typed transformer's `fromName`, however, comes through `XFrontendAction`'s three-string constructor (src/actions/frontendaction.cc:13-17) and `XConsumer` (src/consumer/consumer.cc:12-16, 25). No code in the repository calls that constructor, so a qualified `fromName` is not excluded: for one, the model renames nothing where Clang would match.
- **Printed line numbers**: `IntToString` writes the target line in decimal exactly as the stream does. Stream formatting flags are not modelled.
