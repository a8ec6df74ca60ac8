# Verification of the data engine's transformations

This project models the parts of the repository that turn tables or text into other tables or text, and
proves that they keep their meaning. It is written in Dafny; `dafny verify dfyconfig.toml` checks all of it.
One module stands for one component, and every module is in the file of its name.

Code that works by updating state (the parser, the tokenizer, the join, the planner, the coordinate reader,
the pivot row loop, spilling, ranking, packing, layer building) is written as methods with loops; each is
proved against a specification function or an outright property, and the theorems are about those. Code made
of expressions (rendering, evaluation, key encodings) is written as functions. The producer and consumer
threads are a step relation over all interleavings.

## What is modelled

**Expression text** (`Text`, `Ast`, `Printer`, `Tokenizer`, `Grammar`, `Parser`, `RoundTrip`, `Pratt`,
`OrderedWindows`). The syntax tree, the Spotfire printer, the tokenizer and the precedence-climbing parser,
a class with `tokens` and `index` as in the source. Printing, tokenizing and parsing give back every tree of
the printable fragment, which is the predicate `RoundTrip.Printable`: column names without `]`, non-negative
numbers, casts to the six printable types, calls by a lower-case name that is not a keyword, not a cast name
with one argument and not `if` with three, `CASE` with at least one branch, windows without order or frame
around a call, an `If` or a cast, no first argument or first partition whose token text is `)`, no first
partition that begins with a call of `partition` and no partition that begins with a call of `order`. Two of
these limits are shown to be exact. A `CASE` with one branch is printed as `If(a, b, c)` and read back from
there. How numbers are spelled is a parameter (`FloatText`). The binary operators are ranked by listing them
in five classes, independently of the parser's numbers; chains of them are built as those classes say.
Windows with an order, which are never printed, are read from tokens.

**Joins** (`KeyText`, `Tables`, `HashJoin`, `JoinRows`, `JoinSteps`, `ColumnProjection`, `JoinTask`,
`RightStaging`, `BoundedJoin`, `BoundedEqualsEager`, `JoinMeaning`, `StepMeaning`, `TaskMeaning`,
`PolicyConflict`). Tables are a schema and rows of nullable cells. The hash join is proved against the
nested-loop join for inner, left, right and full joins and for any injective key encoding; the reused right
key map may be prepared with either of two encodings. The eager join reads everything, the bounded join
streams the left side. `BoundedEqualsEager` says that for any split into batches the bounded join writes
exactly the rows of the eager join, including staged right sources. `JoinMeaning`, `StepMeaning` and
`TaskMeaning` say what the joined tables hold: every cell by column name, what each step does to rows and
columns, and that the output comes from rows of the partition. `PolicyConflict` holds two configurations on
which the eager join succeeds and the bounded one fails.

**Expression engine** (`Columns`, `ListRows`, `Evaluator`, `RowMeaning`, `References`, `NativeLists`,
`Engine`, `DeadColumns`, `Layers`, `LayerMeaning`). Columns are arrays of nullable values, or lists given by
offsets, validity and items (which may be lists again). Element functions, casts, calls and windows are
parameters (`Kernels`) that may fail. The theorems: CASE and operators mean what they should value by value,
evaluation looks only at the collected columns, the native list path is the expand/evaluate/compact path,
dead columns may be dropped, layers are built exactly when they exist, and running them gives each derived
column its recursive definition.

**Coordinates** (`Coordinates`, `Materialize`, `StreamedOrder`, `PlannedOrder`, `LocalityPlan`). From
planning to reading back. Rows are read group by group in ascending order of file and row group. When a
window, a pivot or another operation needs the complete input, they are collected and sorted, and a planned
chunk comes back in its planned order, whatever batches the reader returns and whatever an unstable sort
does, exactly when no coordinate repeats. Otherwise they are sent on as they are read: that is the plan in
ascending order of coordinates, and the planned order exactly when the plan strictly ascends.

**Packing** (`Packing`), **pivot** (`Pivot`, `PivotNames`, `PivotLoop`, `PivotMeaning`, `Unpivot`,
`UnpivotMeaning`, `PivotRoundTrip`), **uniqueness on disk** (`SpillRecords`, `UniqueSpill`,
`UniqueMeaning`), **the writer pipeline** (`BoundedPipeline`) and **window ranks** (`WindowRank`) follow the
same pattern. In the spill model a disk is a map from paths to bytes, and the bytes are read back record by
record. Ranks are over integers, standing for the total order of floats.

## What the code does not promise

- The bounded join and the eager join do not always agree. The bounded one projects the left side first,
  which fails when an excluded column is a later join key, and it selects twice, which fails when a column
  is both included and excluded. `BoundedEqualsEager.PoliciesAgree` is the exact condition, and it reads
  only the configuration and the column names. `PolicyConflict` has an example of each.
- A list of lists evaluates natively, but expansion refuses it. The two list paths agree exactly when no
  nested list is referenced. `NativeLists.NestedListDisagrees` is an example.
- The run that drops dead columns fails when a layer leaves no column live, where the full run does not.
  Whether that happens is read off the column names and the document (`DeadColumns.StaysAlive`).
  `DeadColumns.DroppingCanFail` is an example.
- A coordinate that is planned twice comes back once (`PlannedOrder.RepeatIsDropped`), and without an
  operation over complete input the rows come in the order of their coordinates, not of the plan.
- A pivot that names its columns after the column key value keeps a name exactly when the name is
  `{column_key_value}`, or is not blank and holds none of `{column_key_value}`, `<value_key_name>`,
  `{value_key_name}`, `<agg>` and `{agg}` (`PivotNames.NameIsKeptExactly`). `PivotNames.PlaceholderIsRenamed` is an example.
- Pivot keys write a null as `__null__`, so two rows that differ in a null and that text fall together
  (`Pivot.NullReadsAsText`).
- The printer does not escape `]`, and the parser takes a first argument whose text is `)` for the
  closing parenthesis, even inside quotes.

## Model

| member | source | states |
|---|---|---|
| RoundTrip.TextRoundTrip | src/spotfire_expr_normalizer/ast.py:135-182 | Every printable tree: its text tokenizes to exactly the expected tokens, the parser consumes all of them up to the end marker, and the parsed tree is the tree that was printed |
| RoundTrip.ColumnRoundTripsExactly | src/spotfire_expr_normalizer/tokenizer.py:67-80 | A column reference survives printing and parsing if and only if its name has no `]` |
| RoundTrip.CallRoundTripsExactly | src/spotfire_expr_normalizer/parser.py:182-188 | A call of printable arguments survives if and only if its first argument is not a token whose text is `)`, which the closing-parenthesis test takes for the end |
| RoundTrip.LexThen | src/spotfire_expr_normalizer/tokenizer.py:14-64 | Text of a printable tree, followed by any text that starts with a delimiter, tokenizes to the tokens of the tree followed by the tokens of the rest: no token runs over the seam |
| RoundTrip.CommentIsSkipped | src/spotfire_expr_normalizer/tokenizer.py:22-25 | A comment up to the end of its line leaves no token and changes none behind it |
| RoundTrip.LexSingleQuoted | src/spotfire_expr_normalizer/tokenizer.py:30-33 | Single quotes make the same string tokens as double ones |
| RoundTrip.ExprReads | src/spotfire_expr_normalizer/parser.py:109-254 | The parser, at any minimum precedence, reads the tokens of a printable tree back to that tree and stops exactly at the next token that ends an expression |
| Tokenizer.TokenizeExpression | src/spotfire_expr_normalizer/tokenizer.py:14-64 | The indexed loop computes the recursive tokenization of the whole text, or its error, and ends with the end marker |
| Tokenizer.ReadStep | src/spotfire_expr_normalizer/tokenizer.py:18-62 | One turn of the loop depends only on the text from the index on |
| Tokenizer.ReadDelimitedText | src/spotfire_expr_normalizer/tokenizer.py:67-96 | The character loop of bracketed names and quoted strings: content with doubled delimiters undoubled and the position after the closing one, or none if it is missing |
| Parser.ExpressionParser.Current | src/spotfire_expr_normalizer/parser.py:80-81 | The token at the index, and an index error past the end |
| Parser.ExpressionParser.Advance | src/spotfire_expr_normalizer/parser.py:83-86 | Takes exactly one token |
| Parser.ExpressionParser.Match | src/spotfire_expr_normalizer/parser.py:88-92 | Takes a token only when its lower-cased text matches, whatever its kind |
| Parser.ExpressionParser.Expect | src/spotfire_expr_normalizer/parser.py:94-99 | Takes the expected token or fails |
| Parser.ExpressionParser.Parse | src/spotfire_expr_normalizer/parser.py:101-107 | One expression that reaches the end marker, else an error |
| Parser.ExpressionParser.ParseExpression | src/spotfire_expr_normalizer/parser.py:109-119 | The precedence-climbing loop leaves the index where the grammar function stops and returns its tree or its error |
| Parser.ExpressionParser.ParsePrefix | src/spotfire_expr_normalizer/parser.py:121-254 | Literals, columns, signs, parentheses, CASE, casts, calls and OVER, each refining the grammar function with the tokens it leaves |
| Parser.ExpressionParser.ParseCase | src/spotfire_expr_normalizer/parser.py:147-160 | The WHEN loop and the optional ELSE refine the grammar |
| Parser.ExpressionParser.ParseCast | src/spotfire_expr_normalizer/parser.py:162-181 | The cast form refines the grammar |
| Parser.ExpressionParser.ParseArguments | src/spotfire_expr_normalizer/parser.py:182-188 | The comma loop refines the grammar of argument lists |
| Parser.ExpressionParser.ParseOver | src/spotfire_expr_normalizer/parser.py:198-247 | The optional OVER clause refines the grammar |
| Parser.ExpressionParser.OpenWindow | src/spotfire_expr_normalizer/parser.py:199-208 | The opening of a window refines the grammar |
| Parser.ExpressionParser.ParseWindowItems | src/spotfire_expr_normalizer/parser.py:209-246 | The loop over partitions and orders refines the grammar |
| Parser.ExpressionParser.ParseOrder | src/spotfire_expr_normalizer/parser.py:211-233 | One order item refines the grammar |
| Parser.ParseExpressionText | src/spotfire_expr_normalizer/parser.py:257-258 | Parsing a text is tokenizing it and parsing all tokens; either error is the error of the whole |
| Pratt.PrattBuildsTheTree | src/spotfire_expr_normalizer/parser.py:109-119 | For every chain of operands and operators the loop builds a tree that reads back as the chain and every other such tree equals it: left children are of the same operator class or a tighter one, right children of a tighter one, over the classes or, and, comparisons, additive, multiplicative |
| Pratt.ChainFixesTree | src/spotfire_expr_normalizer/parser.py:17-34 | Two well-bound trees with the same in-order reading are the same tree |
| Pratt.PrecedenceFollowsClasses | src/spotfire_expr_normalizer/parser.py:17-34 | The operators are those of the five listed classes, and their precedences order them as the classes are listed |
| Pratt.ThreeOperands | src/spotfire_expr_normalizer/parser.py:109-119 | Of `x op1 y op2 z` the second operator takes `y` if and only if its class is tighter than that of the first |
| Pratt.PrefixTakesOneOperand | src/spotfire_expr_normalizer/parser.py:121-130 | A sign or `Not` takes exactly the operand behind it, whatever binary operator follows |
| Pratt.NotEqual | src/spotfire_expr_normalizer/parser.py:36 | Both spellings of the inequality build the same node |
| OrderedWindows.OrderReads | src/spotfire_expr_normalizer/parser.py:211-233 | An order item reads as spelled: ascending and nulls last unless a direction or the place of nulls is given |
| OrderedWindows.OrderedWindowReads | src/spotfire_expr_normalizer/parser.py:198-247 | A window with any partitions and any order items reads back as those partitions and orders, in their order |
| KeyText.PrefixedIsPrefixFree | native/engine/src/join.rs:1839-1854 | A length-prefixed text determines where it ends whatever follows it |
| Tables.RowKeyIsInjective | native/engine/src/join.rs:1839-1854 | Two keys of the same width with the same key text are cell by cell equal, nulls included |
| HashJoin.HitsAreTheMatches | native/engine/src/join.rs:2258-2283 | The row list under a key holds exactly the right rows with an equal non-null key, in increasing order |
| HashJoin.LeftPairsMeaning | native/engine/src/join.rs:2210-2256 | The nested-loop output holds a pair if and only if the keys are equal and non-null, or the left row is kept and unmatched, and lists each once in left-then-right order |
| HashJoin.RightPairsMeaning | native/engine/src/join.rs:2210-2256 | The tail of a right or full join holds exactly the right rows no left row matches, once each and in order |
| HashJoin.MatchCountIsInnerSize | native/engine/src/join.rs:2301-2305 | The counter of matched rows is the size of the inner join |
| HashJoin.PrepareRightKeyMap | native/engine/src/join.rs:2258-2299 | The prepared map gives for every key the matching right rows, for any injective encoding |
| HashJoin.AppendLeftMatches | native/engine/src/join.rs:2379-2393 | Appends all matches of a left row in order, or one unmatched pair when the join keeps the left side, and counts the matches |
| HashJoin.AppendUnmatchedRight | native/engine/src/join.rs:2245-2254 | After all left rows are probed, the unmarked right rows are exactly the unmatched ones |
| HashJoin.BuildJoinIndices | native/engine/src/join.rs:2210-2256 | The hash join lists exactly the pairs of the nested-loop join, in its order, for inner, left, right and full joins, and counts the equal-key pairs |
| HashJoin.BuildJoinIndicesFromRightKeyMap | native/engine/src/join.rs:2307-2377 | The same from a reused map, whichever of the two encodings it was prepared with; the map stays valid for the next batch |
| JoinRows.TakeRows | native/engine/src/join.rs:368-374 | Reusing a column when the indices are the identity gives what taking by the indices gives |
| JoinRows.JoinBatches | native/engine/src/join.rs:1856-1864 | The joined table is the nested-loop join of the rows with suffix handling and key fallbacks, or the error of missing or mismatched keys |
| JoinRows.JoinBatchesWithRightKeyMap | native/engine/src/join.rs:1866-2027 | The same with a reused right key map, which stays a map of the same right table |
| JoinRows.JoinedRowsAreFlat | native/engine/src/join.rs:2210-2256 | An inner or left join is the concatenation, left row by left row, of what that row alone joins to |
| JoinMeaning.JoinedCells | native/engine/src/join.rs:1909-2014 | Every cell of a successful join by column name: the row pairs are those of the nested loop over the named key cells; a left column holds the left row's cell, and without a left row the cell of the right key it is first paired with, or null; every right column that is neither key nor helper, under its name or with the suffix, holds the right row's cell, and null without one |
| JoinMeaning.PairsMatch | native/engine/src/join.rs:2206-2236 | Rows that a join pairs have equal keys without a null in them |
| JoinMeaning.MatchesArePaired | native/engine/src/join.rs:2228-2236 | Rows with equal keys without a null are paired by every kind of join |
| JoinMeaning.LeftRowsKept | native/engine/src/join.rs:2237-2240 | Left and full joins keep every left row; inner and right joins give none without a right row |
| JoinMeaning.RightRowsKept | native/engine/src/join.rs:2243-2250 | Right and full joins keep every right row; inner and left joins give none without a left row |
| JoinMeaning.JoinNeedsKeys | native/engine/src/join.rs:2168-2186 | A join succeeds only if every key column exists on its side and the paired columns are of one type |
| JoinSteps.JoinIsStep | native/engine/src/join.rs:1866-2027 | A join that does not keep the right side succeeds or fails by the schemas alone and then acts on each left row on its own |
| JoinSteps.RunStepsStack | native/engine/src/join.rs:999-1060 | A chain of selects, filters, joins, renames and drops on stacked rows is the stack of the chain on each part, and the parts succeed or fail together |
| StepMeaning.FilterValueKeeps | native/engine/src/join.rs:1757-1775 | The partition filter succeeds if and only if the column exists, and returns exactly the rows whose cell is the value, in order |
| StepMeaning.FilterKeysKeeps | native/engine/src/join.rs:1792-1826 | The key filter returns exactly the rows some key record lists, in order |
| StepMeaning.SelectProjectsByName | native/engine/src/join.rs:1663-1686 | Selecting leaves, for every chosen name, the cells of the first column of that name |
| StepMeaning.SelectedMeans | native/engine/src/join.rs:1688-1741 | A column is chosen if and only if it is required, or not excluded and included or matched, or present when neither is configured |
| StepMeaning.IncludeProjects | native/engine/src/post_operations.rs:250-263 | Including leaves exactly the listed columns in the listed order, cells by name |
| StepMeaning.ExcludeTakes | native/engine/src/post_operations.rs:265-285 | Excluding leaves exactly the other columns in their places |
| StepMeaning.RenameKeepsRows | native/engine/src/post_operations.rs:287-330 | Renaming fails if and only if two names become one (or there is no column); it maps the names and leaves the rows |
| StepMeaning.StampsColumn | native/engine/src/join.rs:2416-2442 | Stamping always succeeds, puts the value into the partition column of every row and leaves every other cell |
| ColumnProjection.SelectionAfterProjection | native/engine/src/join.rs:1688-1741 | Selecting columns from an already projected left side selects the same names in the same order |
| ColumnProjection.IncludedAndExcluded | native/engine/src/join.rs:1688-1741 | A column both included and excluded passes the projection and then fails the second selection |
| ColumnProjection.SelectSeesThrough | native/engine/src/join.rs:1663-1686 | The selected table is the same from the projected read as from the whole one |
| RightStaging.AllowedMeansListed | native/engine/src/join.rs:1792-1826 | The key filter keeps a row if and only if some key record has the row's key values |
| RightStaging.MatchIsMapped | native/engine/src/join.rs:614-640 | A right row that matches a listed left row passes the filter by mapped keys, whatever the key order of the source |
| RightStaging.StagingIsSound | native/engine/src/join.rs:691-834 | Replacing any of the right sources of a chain by its staged, filtered form leaves the result of the chain unchanged when the left rows are listed |
| JoinTask.ExecuteEager | native/engine/src/join.rs:388-470 | The eager join: selects, filters, joins source by source and applies the last column steps, with the first error in the order of the code |
| JoinTask.EagerIsSteps | native/engine/src/join.rs:388-470 | On a supported configuration the eager join is one chain of steps over the whole left table, and fails if a right source cannot be read |
| TaskMeaning.EagerIsContributions | native/engine/src/join.rs:388-470 | With inner and left joins the output is the concatenation of what each left row contributes on its own, and a left row outside the partition contributes nothing |
| TaskMeaning.RightsOutsideAreUnused | native/engine/src/join.rs:419-426 | With a right partition key any join gives the same result or error from the right rows of the partition alone |
| TaskMeaning.OutputComesFromPartition | native/engine/src/join.rs:399-426 | Every output row is contributed by a left row of the partition joined with right rows of the partition |
| TaskMeaning.OutputIsStamped | native/engine/src/join.rs:446-450 | Every output row carries the partition value in the output partition column |
| TaskMeaning.KeyFilterApplies | native/engine/src/join.rs:402-407 | When the key filter is asked for, every left row that reaches the joins has a key record |
| TaskMeaning.PartitionColumnIsKept | native/engine/src/join.rs:428-431 | The right partition column stays in the joined table exactly when that is asked for and it is no key |
| BoundedJoin.ReadBoundedRights | native/engine/src/join.rs:846-903 | The loop that reads or stages the right sources stops at the first that fails |
| BoundedJoin.JoinBatch | native/engine/src/join.rs:1029-1050 | The joins of a batch do not depend on whether the key maps were prepared by this or an earlier batch, nor on the encoding |
| BoundedJoin.RunBatch | native/engine/src/join.rs:993-1071 | A batch goes through the same chain of steps as a whole table would |
| BoundedJoin.ExecuteBounded | native/engine/src/join.rs:836-1071 | The bounded join writes the chain's output for each projected batch and stops at the first that fails |
| BoundedEqualsEager.FilteredIsListed | native/engine/src/join.rs:1019-1022 | Left rows that passed the key filter satisfy the condition staging needs, so staging needs no promise about the input then |
| BoundedEqualsEager.StagedStepsAgree | native/engine/src/join.rs:668-689 | Whichever of the sources that may be staged are staged, the whole chain gives the same table, or the same error |
| BoundedEqualsEager.BoundedEqualsEager | native/engine/src/join.rs:836-1071 | For any split into batches the bounded join succeeds if and only if the eager one does and the column policies agree; then its outputs have one schema and concatenate to the eager rows, row for row. Staged sources must be keyed by keys of the first source, and the left rows filtered by the key records or all listed in them |
| TaskMeaning.BoundedComesFromPartition | native/engine/src/join.rs:993-1071 | Every row the bounded join writes is what the eager join makes of some left row of the partition |
| PolicyConflict.IncludedAndExcludedDisagrees | native/engine/src/join.rs:999-1004 | With a left column both included and excluded the eager join succeeds and the bounded one fails, whatever the rows |
| PolicyConflict.ExcludedKeyDisagrees | native/engine/src/join.rs:903-917 | With a left column excluded that a first source brings anew and a second one joins on, the eager join succeeds and the bounded one fails, whatever the rows |
| Layers.DistinctArePending | src/spotfire_expr_normalizer/dependency.py:15 | Distinctly named expressions are all pending, in their order |
| Layers.SortAscends | src/spotfire_expr_normalizer/dependency.py:26 | A layer is sorted by name |
| Layers.BeforeMeans | src/spotfire_expr_normalizer/dependency.py:26 | Names are in the order of their first different characters, a beginning before what goes on |
| Layers.BuildExpressionLayers | src/spotfire_expr_normalizer/dependency.py:14-31 | Terminates and succeeds if and only if no dependency is missing or cyclic; then the layers partition the items, each item is in the first layer after its dependencies, and each layer is sorted |
| Layers.LevelIsLongestChain | src/spotfire_expr_normalizer/dependency.py:14-31 | The layer number of an item is the length of its longest dependency chain: such a chain exists and none is longer |
| Layers.LayeredIsSound | src/spotfire_expr_normalizer/dependency.py:14-31 | Items that were layered have no missing and no cyclic dependency |
| References.RefsAreMentions | native/engine/src/expression_executor.rs:129-177 | The collector lists exactly the columns that occur in the expression, each once |
| References.EvalDependsOnMentions | native/engine/src/expression_executor.rs:234-318 | Two batches that agree on the mentioned columns evaluate alike, error or value |
| References.EvaluateDependsOnMentions | native/engine/src/expression_executor.rs:101-127 | The same across the choice of the list path |
| RowMeaning.CaseMeaning | native/engine/src/expression_executor.rs:293-303 | Every value of a CASE, of a row or of a list element, is that of the first branch whose condition is true there and of the ELSE where none is, up to bringing both to one type |
| RowMeaning.BinaryNodeMeaning | native/engine/src/expression_executor.rs:417-428 | Every value of a binary operation, of a row or of a list element, is the kernel's on the left and the right value in that order, scalars repeated beside lists |
| RowMeaning.UnaryNodeMeaning | native/engine/src/expression_executor.rs:241-280 | Plus keeps a column, the other unary operators apply their kernel row by row and refuse lists |
| RowMeaning.CallNodeMeaning | native/engine/src/expression_executor.rs:289-292 | A call sees the values of its arguments, each in its place |
| Columns.ParentIndices | native/engine/src/list_executor.rs:124-135 | The loop lists for every element the row that holds it |
| Columns.ParentHoldsValue | native/engine/src/list_executor.rs:124-135 | The parent of an element is the row whose offset range contains it |
| Columns.TakenRow | native/engine/src/list_executor.rs:76 | Taking rows of a list column copies the elements and the null flag of the row that is taken |
| ListRows.ExpandListRows | native/engine/src/list_executor.rs:15-96 | Expanding yields the elements of the bound lists beside repeated rows of the other columns, with the shape to restore, or the first error in the order of the code |
| ListRows.ExpandSucceeds | native/engine/src/list_executor.rs:15-96 | Expanding succeeds if and only if the bindings are distinct columns that are lists of scalars of one shape |
| ListRows.ExpandedLookup | native/engine/src/list_executor.rs:66-84 | After expanding, a bound name shows its elements and any other name its rows repeated by parent |
| NativeLists.ResultShape | native/engine/src/expression_executor.rs:481-545 | A native result is a list with the offsets and null rows of the lists it mentions, and a scalar column when it mentions none |
| NativeLists.EvalSpreads | native/engine/src/expression_executor.rs:417-459 | Evaluating on expanded rows gives the elements of the native result, scalars repeated, through nested operations and CASE branches |
| NativeLists.NativeIsExpandEvaluateCompact | native/engine/src/expression_executor.rs:101-127 | When native evaluation succeeds on list columns, expand-evaluate-compact succeeds if and only if no referenced list holds lists, and then gives the same offsets, null rows and values |
| NativeLists.NestedListDisagrees | native/engine/src/list_executor.rs:44-51 | A reference to a column holding a list of lists evaluates natively and cannot be expanded |
| Engine.ExecuteLayer | native/engine/src/expression_executor.rs:41-65 | A layer evaluates every item on the snapshot it started with and puts the results in place or at the end |
| Engine.LiveColumns | native/engine/src/expression_executor.rs:66-72 | The walk over the later layers collects the final columns and all columns they mention |
| Engine.LiveMeans | native/engine/src/expression_executor.rs:66-83 | A column is live if and only if it is final or a later layer's expression mentions it |
| Engine.RestrictKeeps | native/engine/src/expression_executor.rs:85-99 | Retaining keeps exactly the entries of the given names, in their order |
| Engine.ExecuteRetaining | native/engine/src/expression_executor.rs:35-77 | The rebinding loop over the layers is the run of the layers with dead columns dropped after each |
| DeadColumns.RunsStayRelated | native/engine/src/expression_executor.rs:35-99 | After every layer the run that drops columns shows the full run restricted to the live columns, in its order, or has failed for the same reason or for having no column |
| DeadColumns.DroppingDeadColumnsIsSound | native/engine/src/expression_executor.rs:35-99 | The dropping run succeeds if and only if the full run does and after each layer some column of the input or of a layer so far is final or referred to later, which the names and the document decide; then it is the full output restricted to the final columns |
| DeadColumns.RunNames | native/engine/src/expression_executor.rs:41-65 | The columns after some layers are those of the input and the names those layers define, whatever the values |
| DeadColumns.DroppingCanFail | native/engine/src/expression_executor.rs:66-99 | Two constant columns in two layers with the second final: the full run succeeds, the dropping run fails |
| LayerMeaning.LayerRuns | native/engine/src/expression_executor.rs:41-65 | A layer of distinct names succeeds if and only if each item does on the snapshot, and then each name shows its item's value or its old column |
| LayerMeaning.LayersComputeTheMeaning | native/engine/src/expression_executor.rs:35-65 | Under any valid layering, running the layers succeeds if and only if the recursive definitions have a solution; the solution is unique and is what the derived columns show, other columns staying as they were |
| LayerMeaning.BuiltLayersAreALayering | src/spotfire_expr_normalizer/dependency.py:14-31 | The layers the builder returns are a valid layering |
| Coordinates.ReadCoordGroups | native/engine/src/coord.rs:118-181 | Fails if and only if a coordinate is negative; else every coordinate of the file is in exactly one group, once, with one of the orders it was given, offsets climbing and groups ascending by file and row group |
| Coordinates.TagStands | native/engine/src/coord.rs:137-165 | Every coordinate row is tagged with its own coordinate and its entry of the active-order column, or its index in the batch if there is none |
| Coordinates.FinishedRegroups | native/engine/src/coord.rs:168-180 | Sorting by offset and dropping repeats loses no coordinate and invents no order |
| Coordinates.SortByOffset | native/engine/src/coord.rs:171 | Some arrangement sorted by offset: nothing is promised about equal offsets |
| Materialize.RowSelectionFromOffsets | native/engine/src/converter.rs:1418-1445 | Succeeds if and only if there are offsets and all are inside the group; for climbing offsets the skip and select runs select exactly them and span the group |
| Materialize.TagBatches | native/engine/src/converter.rs:2851-2880 | The cursor gives every row its own order however the reader splits the rows |
| Materialize.ReadGroup | native/engine/src/converter.rs:2777-2880 | Reading a group succeeds if and only if its coordinates exist, and gives the rows at them with their orders |
| Materialize.ReadGroups | native/engine/src/converter.rs:2777-2980 | The same for all groups one after the other |
| Materialize.SortByActiveOrder | native/engine/src/converter.rs:2459-2484 | Some arrangement sorted by order |
| Materialize.MaterializeRows | native/engine/src/converter.rs:2744-2984 | From a coordinate file to the rows sent to the writer: succeeds if and only if the coordinates are non-negative, at least one, and all exist; the rows are those at its coordinates, sorted by order when complete input is needed and group by group as read otherwise |
| StreamedOrder.GroupsAreAscended | native/engine/src/coord.rs:130-181 | Group after group, the coordinates of a file are read in ascending order, each once |
| StreamedOrder.AscendingIsUnique | native/engine/src/coord.rs:130 | There is only one ascending order of a set of coordinates |
| PlannedOrder.ReadBackIsPlan | native/engine/src/converter.rs:2459-2484 | Whatever grouping and sorting did, the sorted rows are the planned rows in planned order if and only if the planned coordinates are distinct |
| PlannedOrder.MaterializePlan | native/engine/src/planner.rs:153-213 | Writing a chunk and materialising it succeeds if and only if it is not empty and its coordinates exist; with sorting it returns the planned sequence if and only if they are distinct, without it the planned rows in ascending order of coordinates |
| PlannedOrder.StreamedIsPlan | native/engine/src/converter.rs:2922-2962 | Without sorting the rows are the planned sequence when the plan strictly ascends, and if the planned rows differ only then |
| PlannedOrder.StreamedIsPlanExactly | native/engine/src/converter.rs:2922-2962 | A plan comes back in its order from every content of the files if and only if it strictly ascends by file, row group and offset |
| PlannedOrder.RepeatIsDropped | native/engine/src/coord.rs:171-172 | A plan that names one coordinate twice comes back as one row |
| LocalityPlan.RowIndexIsPosition | native/engine/src/planner.rs:594-630 | The index of a planned row is its position in its file |
| LocalityPlan.EveryRowIsThere | native/engine/src/planner.rs:594-630 | Every row of every row group is planned at its file position |
| LocalityPlan.CountFile | native/engine/src/planner.rs:568-583 | A new chunk starts exactly when a file that is not counted yet would exceed the limit on a buffer with rows; the buffer then has room for the file, and counted files with rows are in the buffer |
| LocalityPlan.PlanRow | native/engine/src/planner.rs:611-628 | Pushing a row keeps the plan: the chunks and the buffer hold the rows so far, each chunk within its row and file limits |
| LocalityPlan.PlanUnfiltered | native/engine/src/planner.rs:554-650 | The chunks concatenate to all rows of all files in order; each holds at most the row count and rows of at most max(1, limit) files; it fails only for a missing file or an index beyond 32 bits |
| LocalityPlan.PlannedChunksAreDistinct | native/engine/src/planner.rs:554-650 | Planned over distinct paths, no chunk names a coordinate twice, which is what reading back in order needs |
| Packing.PackGroupCosts | src/smoking_data/core/cost_model.py:64-99 | The packing concatenates to the input, each part is non-empty and within all limits or a single group, and no such split of the groups has fewer parts |
| Packing.UnknownFillsTask | src/smoking_data/core/cost_model.py:82-89 | A group of unknown payload shares a part with groups of no payload only |
| Packing.StaysAhead | src/smoking_data/core/cost_model.py:64-99 | A part that starts no later than the greedy one cannot end later |
| Packing.PackedIsShortest | src/smoking_data/core/cost_model.py:64-99 | From any start, greedy packing needs no more parts than any split that starts there or earlier |
| Packing.PackedIsSplit | src/smoking_data/core/cost_model.py:64-99 | Greedy parts are non-empty, legal and concatenate to the groups |
| Pivot.CompositeKeyIsInjective | native/engine/src/pivot.rs:282-311 | Two composite keys of the same width that are equal as text have equal parts |
| Pivot.NullReadsAsText | native/engine/src/pivot.rs:282-311 | A null and the text that stands for it make the same row key |
| PivotNames.NameIsKeptExactly | native/engine/src/pivot.rs:313-341 | A column value becomes the column name unchanged if and only if it is not blank and either is the placeholder of the column value itself or contains none of the five placeholders that are replaced after it |
| PivotNames.PlaceholderIsRenamed | native/engine/src/pivot.rs:313-341 | A column named after the aggregation's placeholder comes back as the aggregation |
| PivotNames.DefaultColumnName | native/engine/src/pivot.rs:313-341 | Without a rule a column is named by its column value, two underscores and the value key's name |
| PivotLoop.GroupTable | native/engine/src/pivot.rs:82-113 | The row loop numbers groups and columns by first appearance and lists for each cell exactly its rows, in order |
| PivotLoop.PivotRecordBatch | native/engine/src/pivot.rs:60-209 | The loops compute the specified pivot, or the error of the configuration |
| PivotMeaning.PivotMeans | native/engine/src/pivot.rs:60-209 | A successful pivot in terms of input rows: one row for each row that is the first of its key texts, headed by its key cells; for each value key and each column text, in order of first appearance, the value of the first input row with that key and text, and null if and only if there is no such row or its value is null; columns under their rendered names |
| Unpivot.UnpivotTable | native/engine/src/post_operations.rs:332-399 | The loops compute the specified long table, or the error of the configuration |
| UnpivotMeaning.UnpivotMeans | native/engine/src/post_operations.rs:332-399 | A successful unpivot holds one long row for exactly the rows and value columns whose value is not null, or for all if nulls are kept, row by row and in the order of the value columns, with the ids, the column's name and the value |
| PivotRoundTrip.PivotUndoesUnpivot | native/engine/src/pivot.rs:60-209 | Pivoting an unpivoted table gives back its id and value columns, rows and columns in their order, if and only if the rows have distinct composite keys and every value column's name is rendered as itself |
| PivotRoundTrip.PivotUndoesUnpivotByName | native/engine/src/pivot.rs:60-209 | The same with the condition on names in terms of the placeholders they contain |
| PivotRoundTrip.SameCompositeKey | native/engine/src/pivot.rs:282-311 | Two rows share a composite key if and only if their key texts agree column by column |
| SpillRecords.UniqueKeyIsInjective | native/engine/src/post_operations.rs:857-870 | Equal encodings of keys of one width come from equal cells, nulls told apart from every text |
| SpillRecords.RecordReadsBack | native/engine/src/post_operations.rs:905-922 | A record followed by anything reads back as the row index and key that were written, leaving the rest |
| SpillRecords.PathsDiffer | native/engine/src/post_operations.rs:891-903 | Two bucket files coincide only for the same sanitised rule id and the same bucket |
| UniqueSpill.SpillAll | native/engine/src/post_operations.rs:713-787 | After reading, every bucket file of every rule holds the records of exactly the rows whose key hashes there, in order |
| UniqueSpill.CountBucket | native/engine/src/post_operations.rs:789-808 | Reading a bucket back counts its records less its distinct keys |
| UniqueSpill.CountRule | native/engine/src/post_operations.rs:789-808 | The buckets of a rule together count its rows less its distinct keys, whatever the hash |
| UniqueSpill.CheckUnique | native/engine/src/post_operations.rs:713-808 | For any hash function and any batches each rule's count is the rows less the distinct key tuples; it fails if and only if a rule's column is missing |
| UniqueMeaning.KeyStands | native/engine/src/post_operations.rs:766-785 | The keys counted are the cells of the rule's columns of every row of every batch, in reading order |
| UniqueMeaning.CountIsRepeats | native/engine/src/post_operations.rs:788-808 | A rule's count is the number of rows whose key some earlier row has |
| BoundedPipeline.RunInv | native/engine/src/bounded_pipeline.rs:23-71 | The protocol invariant holds in every state of every interleaving |
| BoundedPipeline.EveryRunIsSafe | native/engine/src/bounded_pipeline.rs:43-71 | Received messages followed by the queue are the sent messages, the queue stays within capacity, publishing needs `finish` and every sent message written, and a successful `finish` has published |
| BoundedPipeline.CountsAgree | native/engine/src/converter.rs:3032-3039 | When `finish` returns counts they are the counts of what was produced, so the count-mismatch error cannot occur |
| BoundedPipeline.LostNeverPublishes | native/engine/src/converter.rs:353-396 | Once dropped without `finish`, or after a write error, no later step publishes |
| BoundedPipeline.NeverStuck | native/engine/src/bounded_pipeline.rs:43-71 | Until both threads are over some step that is no error of its own is possible: waiting on a full or an empty queue and joining cannot deadlock |
| BoundedPipeline.ClosingRunsEnd | native/engine/src/bounded_pipeline.rs:51-71 | Once `finish` was called or the pipeline is dropped, every interleaving is over within two steps for each place of the queue and six more |
| WindowRank.RankWindow | native/engine/src/expression_executor.rs:1350-1428 | Every non-null row of a group gets the rank the definition gives it in that group and every other row none |
| WindowRank.RankGroup | native/engine/src/expression_executor.rs:1388-1426 | Within a group: average rank is the number before plus half of one more than the number equal, dense rank one more than the distinct values before; other rows keep what they had |
| WindowRank.SortByValue | native/engine/src/expression_executor.rs:1394-1400 | The sorted rows are the same rows in order of value; equal values may come in any order |
| WindowRank.WriteDense | native/engine/src/expression_executor.rs:1401-1410 | The running dense rank of a row is one more than the number of distinct values before its own |
| WindowRank.WriteAverage | native/engine/src/expression_executor.rs:1411-1425 | The rank written for a block of equal values is the average rank of that value |
| WindowRank.RankOfBlock | native/engine/src/expression_executor.rs:1419 | Half the sum of the first and last position of a block is the number before plus half of one more than the number equal |
| WindowRank.AverageMeans | native/engine/src/expression_executor.rs:1394-1425 | Ascending average rank is the number of smaller values plus half of one more than the number of equal ones, descending with the greater ones |
| WindowRank.DenseMeans | native/engine/src/expression_executor.rs:1394-1410 | Ascending dense rank is one more than the number of distinct smaller values, descending of distinct greater ones |
| WindowRank.RanksAddUp | native/engine/src/expression_executor.rs:1387-1426 | The average ranks that are written for a group with m non-null rows add up to m(m + 1)/2, ties or not, in either direction |
| WindowRank.AverageMirror | native/engine/src/expression_executor.rs:1394-1400 | Descending average rank is m + 1 less the ascending one |
| WindowRank.DenseMirror | native/engine/src/expression_executor.rs:1394-1400 | Descending dense rank is one more than the number of distinct values less the ascending one |

## Left out

- Token positions and the wording of error messages; errors are told apart by kind only.
- Unicode: digits, letters and case folding are those of ASCII.
- How floating-point numbers are written and read, and rounding; ranks and values use integers and reals, and the order of floats is any total order.
- Row-index widths of `u32` and `usize`, except the 32-bit checks of the planner's chunk writer and the 32-bit key length of spill records.
- Cross joins, the Polars backend and its bridge.
- Parquet, Arrow IPC, S3, file-system calls, retries, profiles and counters: files are given sequences, publishing is one step.
- Choosing row groups by statistics, and aligning the schemas of several files of one source; a source is one table.
- The library of scalar and window functions, casts, regex, base64 and dates: they are parameters that may fail and otherwise return one value per row.
- Display rendering of values and the Arrow row format: a cell is its rendered text, and the binary key encoding is any injective function.
- Writing planned chunks from selected rows, filters, de-duplication and pattern matching in the planner: easier forms of the unfiltered plan.
- Projection, restoring and lookups between reading and sorting: they act row by row.
- JoinRows.JoinBatches: does not model cross joins, which have no keys and pair every row with every row.
- JoinTask.ExecuteEager: does not model cross joins, nor unpivoting and assertions after the join, which act on the finished table.
- BoundedEqualsEager.BoundedEqualsEager: for staged sources the condition on the left rows is sufficient; a source whose unlisted rows happen to match nothing would do as well.
- PivotLoop.PivotRecordBatch: models the aggregation `first`; other aggregations, value keys without a column, casts to an output type and the switch that turns the pivot off are not modelled.
- PivotNames.NameIsKeptExactly: for value keys whose own name does not begin with `<` or `{`; for the others `PivotRoundTrip.PivotUndoesUnpivot` states the condition by rendering the names.
- Unpivot.UnpivotTable: does not model the coercion of value columns of different types, which is a cast.
- UniqueSpill.CheckUnique: does not state which row indexes are sampled, and leaves out the other assertion kinds.
- BoundedPipeline.EveryRunIsSafe: steps are atomic and the flag is read in the order it was written; memory orderings weaker than that, panics of the consumer and the single steps of finalising are not modelled.
- In-memory unique checks and window partition keys joined by a bare separator: that join is not injective, so they do not equal grouping by tuples.
- Rewriting expressions to DuckDB and Polars text, logic keys, configuration parsing and reports.
