# Wordflow: a verified model

This project models the parts of Wordflow that must not go wrong and proves what they are for. It covers
five clusters.

- **SQL views.** `Lexer`, `Script`, `Scanner` and `Ddl` model the hand-written lexer, the statement splitter and the
  reader of stored definitions; `Grammar` says in its own terms which texts lex, and to what. `SqlTree`, `SqlSemantics` and `SqlRewrite` model the query tree, what a query means, and
  the scope-aware walk that replaces a source; `SqlColumns` says what SQL sees at each place of a query; `SqlScopes`,
  `SqlMeaning`, `SqlStrays`, `SqlTheorems` and `SqlClaims` say exactly when the walk keeps meaning, and `SqlReferences`
  what it reports. `SqlWrap`, `SqlEdits`, `SqlCommute` cover query-layer edits and undo. `SqlCapture` holds single views
  and `SqlAccepted` single edits, over the small database of `SqlSample`, on which the code does not do what one would
  expect.
- **Commits and renames.** `Changes` is the invalidation fixpoint and the mutation stamps; `Renames` orders dependent
  views, `SqlProject` renames a relation of a whole project, `Numbering` makes names new.
- **Tasks.** `TaskSpec` says what each operation does, `Tasks` is the registry itself, `TaskRuns` proves what holds over
  every interleaving, and `TaskEffects` what each action shows and what a shown task tells of the run.
- **The embedding cache.** `VectorCodec`, `TextCache`, and `CacheProtocol`, a state machine of lookups, stores and
  clears in several processes; `CacheProgress` proves that it has no deadlock and gets its work done.
- **Compensation and index arithmetic.** `FileTree`, `LibraryNames`, `Files` and `Uploads`; `Connections` and
  `ConnectionEffects`; `Pooling`, `PoolingModes` and `Batching`; `Offsets`.

Foreign code is a parameter. DuckDB's operators, joins, grouping and set operations are the functions of an `Engine`;
parsing and rendering are taken to be inverse, so views are trees. The text encoder and its hash, the ONNX model, the
square root, URL validation, clocks, new ids, the file system's failures and the secret store's failures are arguments
of the operations. Every theorem holds for all values of these parameters, under the conditions it states.

Sources that compute a value by recursion are functions; loops are methods proved against those functions; objects
with state are classes whose methods are tied to functions or relations on their abstract state, and the run theorems
are about those.

## Promises that do not hold

**The walk keeps a view's rows.** It does not, on seven kinds of views, each shown by one view of which every other
condition holds:

- a column qualified by schema and table, inside a subquery over a CTE of the source's name: the walk binds CTEs by
  schema-qualified names too, takes the column for the CTE's and leaves it behind
  (`SqlCapture.QualifiedThroughCteLosesRows`);
- a column inside a FROM clause, correlated to an outer item that goes by the source's name, where that FROM clause
  reads the source further to the right: the walk applies a whole FROM clause's bindings inside that clause, takes the
  column for the source's and renames it (`SqlCapture.CaughtInFromLosesRows`; all qualifiers have one part);
- the source's row, selected by the source's bare name: only qualifiers are renamed (`SqlCapture.RowByNameLosesRows`);
- a field of a column that is called like the source: the walk does not look at columns and takes the column's name for
  the source's (`SqlCapture.StructFieldLosesRows`);
- a column of an outer source, read over an item of the same name that has no such column: the walk takes it for the
  inner item's and leaves it behind (`SqlCapture.NamesakeLosesRows`);
- a column qualified by database and table: the walk binds no table that way (`SqlCapture.DatabaseQualifiedLosesRows`);
- the source itself qualified by the database alone: the catalogue has no schema of that name, and the table is neither
  reported nor replaced (`SqlCapture.TableByDatabaseLosesRows`).

For the last kind the condition is on each table: it is reported as what it reads exactly if it is not qualified by the
database alone and found in a default schema (`SqlTheorems.ReportsWhatItReads`). For the others it is on each reference,
and can be read off the view, the catalogue and the columns of the tables. SQL resolves a reference scope by scope, from
the innermost, what stands to the left in a FROM clause being a scope for what stands to the right: by the longest
qualifier of an item that has the column, then as a column with struct fields, then as a row. A reference is *misclaimed*
if the walk and SQL take different numbers of its names for the source, or if what the walk makes of it is resolved by a
scope that the old names pass. A rewritten reference denotes what it denoted if and only if it is not misclaimed
(`SqlScopes.ReferenceStays`), and that is so in values: a misclaimed one has another value on some rows of these scopes
(`SqlStrays.MisclaimedStrays`). The whole rewritten tree replaces the source and keeps every reference if and only if
none is (`SqlClaims.WalkTurns`); and then the view keeps every row (`SqlClaims.WalkKeepsRows`). In a project where no
view has a misclaimed reference, a rename keeps the rows of all views (`SqlProject.RenameKeepsEveryView`).

**A stored edit means the edit.** The guard compares the reserved names exactly and only where they are aliases or names
of CTEs, so that six kinds of edits are accepted and stored as something else:

- an own CTE takes the input's name in another case (`SqlAccepted.ShadowedInputIsAccepted`);
- a column is qualified by the input in another case (`SqlAccepted.OtherCaseIsAccepted`);
- a nearer item goes by the input's name in another case and takes the reference, or by the mark's name in another case
  and takes what the wrapper makes of it (`SqlAccepted.NearerItemIsAccepted`);
- an own CTE goes by the name of a table that the previous definition reads (`SqlAccepted.CapturedTableIsAccepted`);
- the input is read a second time, outside the outermost FROM clause (`SqlAccepted.SecondReadIsAccepted`);
- the input's row is selected by its name without an alias: the column takes the mark's name
  (`SqlAccepted.RowLabelIsAccepted`).

What is stored always runs the edit's clauses over the previous rows, never over a CTE of the input's name
(`SqlEdits.StoredMeans`), while the edit itself runs them over that CTE (`SqlEdits.EditMeans`). A reference is kept if
and only if nothing nearer is reached by it before or after, and it spells the input exactly where it means it
(`SqlEdits.InputReference`, and in values `SqlEdits.InputStrays`); a whole edit is turned into itself over the mark if
and only if each of its references, stars and labels is kept (`SqlEdits.RenameTurns`). Where that holds, its CTEs capture
no table and its input is read once, the stored edit has the edit's rows (`SqlEdits.EditSubstitutes`).

**A failed move or deletion changes nothing.** It does if undoing a rename fails as well. What is left is exactly the
renames before the one whose undoing failed (`Files.Files.RunMoves`); a deletion then removes the trash folder with what
was left in it (`Files.Files.DeleteFiles`, `Files.FailedDeletionLoses`). If no undoing fails, nothing changed.

**Byte spans "ordered by start".** The documentation's condition is not enough for the single sweep, as spans may also
overlap. The sweep is exact on whole characters if and only if no boundary is below the one before it
(`Offsets.ExactIff`, `Offsets.StartOrderIsNotEnough`).

## Model

| member | source | states |
|---|---|---|
| `SqlScopes.ReferenceStays` | backend/src/query.rs:697-711 | Rewritten by the items that the walk has bound, a reference denotes the column and fields, or the row, that it denoted in the scopes that SQL sees, if and only if it is not misclaimed |
| `SqlStrays.MisclaimedStrays` | backend/src/query.rs:697-711 | In values: on some rows of those scopes the rewritten reference has another value if and only if it is misclaimed |
| `SqlScopes.StarStays` | backend/src/query.rs:665-682 | The rewritten qualifier of a star names the item of its FROM clause that it named if and only if the walk and SQL take it for the source alike |
| `SqlClaims.WalkTurns` | backend/src/query.rs:615-839 | The walked tree has the source replaced and every reference on what it denoted if and only if no reference of the tree is misclaimed |
| `SqlClaims.WalkKeepsRows` | backend/src/query.rs:550-564 | On every such view, in every database where the target holds the source's rows, the walk keeps every row: through CTEs, recursion, aliases, joins with items that read those to their left, correlated subqueries and qualifiers of any length |
| `SqlTheorems.TurningKeepsRows` | backend/src/query.rs:550-564 | Any rewriting that replaces the source by a target of a new name and keeps every reference on what it denoted keeps every row |
| `SqlMeaning.QuerySame` | backend/src/query.rs:615-695 | Every query node so turned has the rows of the original, in matching CTE environments and scopes, and the columns that its text tells |
| `SqlProject.RenameKeepsEveryView` | backend/src/project.rs:591-695 | After a rename every view of the project has the rows it had, views over views included, and the renamed relation has them under its new name |
| `SqlProject.LoopRedefines` | backend/src/project.rs:668-683 | In whatever order the loop redefines the views it collected, every view that reads the source ends with its rewritten definition and every other view with its own |
| `SqlCapture.QualifiedThroughCteLosesRows` | backend/src/query.rs:712-803 | A single view with a two-part qualifier through a CTE of the source's name, where all other conditions hold and the rows change |
| `SqlCapture.CaughtInFromLosesRows` | backend/src/query.rs:647-657 | A single view with one-part qualifiers: a column correlated to an outer item, left of the source in a FROM clause, is taken for the source's, and the rows change |
| `SqlCapture.RowByNameLosesRows` | backend/src/query.rs:697-711 | A single view that selects the row of the source by its name is left with the old name, and the rows change |
| `SqlCapture.StructFieldLosesRows` | backend/src/query.rs:697-711 | A single view that reads a field of a column called like the source has the column's name renamed, and the rows change |
| `SqlCapture.NamesakeLosesRows` | backend/src/query.rs:697-711 | A single view whose column is the outer source's, as the nearer table of that name has none, is left with the old qualifier, and the rows change |
| `SqlCapture.TableByDatabaseLosesRows` | backend/src/query.rs:726-770 | A single view that qualifies the source by the database alone reports another relation and is left as it was, and the rows change |
| `SqlCapture.DatabaseQualifiedLosesRows` | backend/src/query.rs:775-795 | A single view that qualifies a column by database and table is left with the old qualifier, and the rows change |
| `SqlTheorems.ReportsWhatItReads` | backend/src/query.rs:726-770 | The relation reported for a free local table is the stored table that the query reads there if and only if the table is not passed over: qualified by the database alone, and found in a default schema |
| `SqlTheorems.ReadsOnlyReferences` | backend/src/query.rs:550-564 | The rows of a view in which no table is passed over depend on nothing but its reported references and other databases |
| `SqlReferences.CollectsFree` | backend/src/query.rs:615-839 | The free tables are exactly those written where a query reads them, in a FROM clause or a join of one, under no CTE of that name; defined independently along paths into the tree |
| `SqlReferences.ReportsExactlyFree` | backend/src/query.rs:550-564 | A relation is reported if and only if it is that of a free, local table |
| `SqlReferences.FreeAfterWalk` | backend/src/query.rs:615-839 | Because a replaced table is schema-qualified, no CTE captures it: the free tables of the rewritten query are the old ones with the source swapped |
| `SqlReferences.ReferencesFollow` | backend/src/query.rs:550-564 | The references of the rewritten view are the original ones, in order, with the source mapped to the target |
| `SqlEdits.InputReference` | backend/src/query.rs:356-376 | With the mark for the input a reference denotes what it denoted if and only if nothing nearer is reached by it before or after, and where it means the input it spells it exactly |
| `SqlEdits.InputStrays` | backend/src/query.rs:356-376 | In values: on some rows of the edit's scopes the reference has another value if and only if that fails |
| `SqlEdits.RenameTurns` | backend/src/query.rs:356-376 | A tree that passes the guard has every reference, star and label on what it was over the input if and only if each of them is kept |
| `SqlEdits.StoredMeans` | backend/src/query.rs:313-344 | A stored edit whose references are kept runs the edit's clauses over the rows of the previous definition, even where a definition takes the input's name in another case |
| `SqlEdits.EditMeans` | backend/src/query.rs:313-344 | The edit itself runs them over the definition that takes the input's name, if there is one |
| `SqlEdits.EditSubstitutes` | backend/src/query.rs:313-376 | So a stored edit means the outer query with its input bound to the rows of the previous definition, unless a definition takes the input's name and has other rows |
| `SqlAccepted.ShadowedInputIsAccepted` | backend/src/query.rs:345-355 | An edit with a CTE whose name differs from the reserved input only in case passes the guard, and what is stored has other rows than the edit |
| `SqlAccepted.OtherCaseIsAccepted` | backend/src/query.rs:356-376 | So does an edit without any CTE that qualifies a column by the input in another case |
| `SqlAccepted.NearerItemIsAccepted` | backend/src/query.rs:345-376 | So does an edit with a subquery whose table goes by the input's or the mark's name in another case |
| `SqlAccepted.CapturedTableIsAccepted` | backend/src/query.rs:313-344 | So does an edit with a CTE that goes by the name of a table the previous definition reads |
| `SqlAccepted.SecondReadIsAccepted` | backend/src/query.rs:313-344 | So does an edit that reads its input in a subquery as well |
| `SqlAccepted.RowLabelIsAccepted` | backend/src/query.rs:356-376 | An edit that selects its input's row without an alias passes the guard, and the column is stored under the mark's name |
| `SqlWrap.UndoInvertsEdit` | backend/src/query.rs:313-388 | Undo after any accepted edit gives back exactly the previous definition |
| `SqlWrap.AcceptsExactly` | backend/src/query.rs:313-355 | For every edit and every previous definition: the edit is accepted if and only if it is a SELECT whose FROM is the unqualified input without another alias, and nothing else along any path of it has the input's or the mark's name for its alias or, as a CTE, for its key; otherwise it is refused as invalid |
| `SqlWrap.NothingToUndo` | backend/src/query.rs:376-388 | A definition in which nothing goes by the mark's name is refused as having nothing to undo |
| `SqlWrap.HistoryIsStack` | backend/src/project.rs:412-500 | Over every history of edits and undos, rejected ones included, the definition is the base under the edits not yet undone |
| `SqlWrap.UndoAll` | backend/src/project.rs:412-500 | n accepted edits followed by n undos restore the original definition |
| `SqlCommute.UndoAfterReplacement` | backend/src/query.rs:377-388 | Replacing a source in an edited view and then undoing gives the previous definition with the source replaced, where the edit's CTE names are not free in that definition, if and only if no reference in it is respelled by the mark's binding |
| `Lexer.LexOrdered` | backend/src/query.rs:57-165 | Tokens are nonempty, inside the text, disjoint and in order |
| `Lexer.LexMoves` | backend/src/query.rs:57-165 | Lexing the same text elsewhere gives the same tokens, shifted |
| `Lexer.NextCut` | backend/src/query.rs:57-165 | A lexeme that ends before a cut is read alike from the cut text |
| `Lexer.LexCut` | backend/src/query.rs:57-165 | The text up to a semicolon token lexes to exactly the tokens up to it |
| `Lexer.LexResumes` | backend/src/query.rs:57-165 | The text after a semicolon token lexes to exactly the tokens after it |
| `Scanner.SkipLine` | backend/src/query.rs:57-165 | The loop over a line comment stops where the recursive definition says |
| `Scanner.SkipComment` | backend/src/query.rs:57-165 | The depth-counting loop over nested comments finds the matching end, or none |
| `Scanner.SkipQuote` | backend/src/query.rs:57-165 | The loop over quoted text with doubled quotes and escapes finds its end, or none |
| `Scanner.SkipWord` | backend/src/query.rs:57-165 | The loop over a word stops at its end |
| `Scanner.TagLengthIsDollarTag` | backend/src/query.rs:167-180 | The search for a dollar-quote tag and its recursive definition agree |
| `Scanner.Tokenize` | backend/src/query.rs:57-165 | The lexer's loop computes the specified tokens and values for every text, or the error and the tokens before it |
| `Grammar.LexesExactly` | backend/src/query.rs:57-165 | A text lexes to given tokens if and only if it can be printed from white space, comments, nested ones included, quoted and dollar-quoted texts, marks and words, each of which ends where it should, and the tokens are those of the printed items |
| `Grammar.RefusesExactly` | backend/src/query.rs:57-165 | A text is refused exactly where, after items that fit, no further item does; the message says what is left open and the tokens before it are those of the items |
| `Grammar.EscapedLiteral` | backend/src/query.rs:92-124 | Any text, printed with a backslash before each backslash and quote, lexes after the word E to that word and one quoted token over the whole literal |
| `Grammar.PlainLiteral` | backend/src/query.rs:92-124 | Without E a backslash is an ordinary character, and a literal with doubled quotes is one token with the text as its value |
| `Scanner.SplitStatements` | backend/src/query.rs:181-203 | The splitter's loop computes the specified pieces for every script |
| `Script.ScriptSegments` | backend/src/query.rs:181-203 | The segments of a script that lexes partition it, and each lexes on its own to its own tokens, shifted |
| `Script.PiecesAreStatements` | backend/src/query.rs:181-216 | No piece is refused by the one-statement check, and splitting a piece gives that piece |
| `Script.PieceIsJudged` | backend/src/query.rs:204-252 | The batch check judges every piece of a script by the first words that it has in the script, and by nothing else |
| `Script.ValidateExactly` | backend/src/query.rs:204-252 | A text goes into a batch exactly if it lexes, has a token, has no semicolon but at its end, sets nothing without the scope SESSION or VARIABLE, and does not begin with one of fifteen words, in any case |
| `Script.LeftOutIsBlank` | backend/src/query.rs:181-203 | What is left out of the pieces lexes to nothing or to one semicolon |
| `Script.IndexCountsPieces` | backend/src/query.rs:43-56 | The statement index that a lexical error reports counts as the splitter does: a script has as many pieces as it ends statements, and one more if its last is open |
| `Ddl.UndoubleDoubled` | backend/src/query.rs:10-16 | Undoubling quotes undoes doubling them |
| `Ddl.RelationRoundTrip` | backend/src/query.rs:14-29 | For all names, lexing a printed relation gives back its schema and name |
| `Ddl.ReadBody` | backend/src/query.rs:287-311 | The loop that looks for the body of a stored definition computes the specified result |
| `Ddl.DefinitionRoundTrip` | backend/src/project.rs:962-968 | Whatever the names, the body of a redefinition is read back, trimmed, if and only if it lexes |
| `Ddl.SelectBodyExactly` | backend/src/query.rs:287-311 | A stored definition is what follows the first AS outside of parentheses, trimmed, under the names listed in parentheses before it if there are any; without such an AS it is refused |
| `Ddl.TrimBodyExactly` | backend/src/query.rs:297 | A body is read back as a text exactly if that text neither begins nor ends with white space, nor ends with a semicolon, and what surrounds it is white space, and behind it semicolons |
| `Ddl.ColumnsRoundTrip` | backend/src/query.rs:287-311 | A stored view with a column list is read back as its body under those column names, whatever they are |
| `Names.TrimExactly` | backend/src/query.rs:297 | Trimming takes off all white space at both ends and nothing else |
| `Changes.ClosureIsReachable` | backend/src/project/changes.rs:177-212 | A set that holds the seeds, is closed under the edges and has only reachable members is the set of what paths reach |
| `Changes.Include` | backend/src/project/changes.rs:248-255 | Adds a relation unless one that differs only in case is there; the order of the others is kept |
| `Changes.Sweep` | backend/src/project/changes.rs:193-206 | One pass adds only reachable relations; if it adds nothing, no edge leads out |
| `Changes.Closure` | backend/src/project/changes.rs:177-212 | The fixpoint loop terminates, and its result names exactly the relations reachable, ignoring case, from the changed, diagnosed and uncertain ones along the edges before and after; nothing is named twice beyond the input |
| `Changes.ReachedByChain` | backend/src/project/changes.rs:177-212 | What the fixpoint names is what a chain of dependencies, before or after, leads to from a changed relation or from a node that is uncertain or has a diagnostic |
| `Changes.Finish` | backend/src/project/changes.rs:162-212 | The scope is broad exactly when it was or the graph could not be read; otherwise it is the closure |
| `Changes.Notifications.Publish` | backend/src/project/changes.rs:51-79 | The new stamps are those of the specified publication; empty scopes are not published |
| `Changes.PublishStamps` | backend/src/project/changes.rs:51-79 | A publication leaves a stamp alone unless it is broad or names the relation, and then raises it |
| `Changes.PublishExactly` | backend/src/project/changes.rs:51-79 | A scope that says something takes the next sequence number and gives it to everything if it is broad, and else to the objects it names, ignoring case; an empty one changes nothing |
| `Changes.StampUnchanged` | backend/src/project/changes.rs:35-79 | Between two points of any run a stamp is the same if and only if no publication in between was broad or named the relation, ignoring case |
| `Changes.Commit` | backend/src/project/changes.rs:146-224 | An abandoned change leaves every stamp; a committed one changes the stamp of a relation if and only if the change is broad, or names an object and either the dependencies cannot be read or a chain of dependencies, before or after, leads to the relation from a named one or from one that is uncertain or has a diagnostic |
| `Changes.DependentsStale` | backend/src/project/changes.rs:146-224 | Whatever depends on a changed relation along any path has a stale stamp once the change is published, and forever after |
| `Renames.BlockedIsCyclic` | backend/src/project.rs:668-683 | Where every view refers to another of them, some views refer to one another in a circle |
| `Renames.OrderedIsAcyclic` | backend/src/project.rs:668-683 | Views in an order in which none refers to itself or a later one have no circle |
| `Renames.RedefineAll` | backend/src/project.rs:668-683 | The loop terminates, succeeds if and only if the references among the views have no circle and no definition is refused, redefines each view exactly once, and after every view it refers to |
| `Renames.ReferencesFirst` | backend/src/project.rs:668-683 | In such an order every relation that a view refers to, ignoring case, and that is redefined too, comes before it |
| `Renames.RedefinedEach` | backend/src/project.rs:668-683 | After redefining views one by one each has its new definition and every other its own |
| `Renames.UniqueName` | backend/src/project.rs:945-961 | The loop ends with the first candidate that is not taken, ignoring case |
| `Numbering.DigitsExactly` | backend/src/project.rs:945-961 | The number in a name is its one decimal numeral without leading zeros |
| `Tasks.Tasks.Publish` | backend/src/tasks.rs:183-210 | Sorts, evicts and replaces the snapshot as specified |
| `Tasks.Tasks.Update` | backend/src/tasks.rs:211-220 | Replaces one summary and publishes; an unknown id changes nothing |
| `Tasks.Tasks.Submit` | backend/src/tasks.rs:230-280 | Refuses blank titles and busy tabs, else adds a queued entry |
| `Tasks.Tasks.Cancel` | backend/src/tasks.rs:350-365 | Marks an unfinished entry and cancels its token; reports unknown ids |
| `Tasks.Tasks.Dismiss` | backend/src/tasks.rs:366-382 | Refuses unfinished entries, else removes |
| `Tasks.Tasks.CancelAll` | backend/src/tasks.rs:383-396 | The loop marks every unfinished entry and cancels their tokens |
| `Tasks.Tasks.Purge` | backend/src/tasks.rs:323-336 | Cancels the tokens of a tab and removes its entries |
| `Tasks.SortEntries` | backend/src/tasks.rs:183-199 | The insertion loop computes the specified stable sort |
| `Tasks.RetainEntries` | backend/src/tasks.rs:200-206 | The counting loop keeps what the recursive definition keeps |
| `TaskRuns.SortKeeps` | backend/src/tasks.rs:183-199 | Publishing orders the entries, unfinished first, then failures, then successes, newest first, and is a permutation |
| `TaskRuns.SortStable` | backend/src/tasks.rs:183-199 | Entries of equal rank keep their order |
| `TaskRuns.EvictsOnlyBeyondHundred` | backend/src/tasks.rs:200-206 | An entry is evicted if and only if it is finished and a hundred finished ones rank before it |
| `TaskRuns.SubmitAdds` | backend/src/tasks.rs:230-280 | The submitted task is there, queued, and every other unfinished entry stays as it was |
| `TaskRuns.UpdateEffect` | backend/src/tasks.rs:118-136 | An update from a worker changes its own entry and nothing else, and an unfinished entry is never lost |
| `TaskRuns.CancelEffect` | backend/src/tasks.rs:350-365 | Cancelling an unfinished task marks it, cancels its token and leaves the others |
| `TaskRuns.CancelAllEffect` | backend/src/tasks.rs:383-396 | Afterwards everything is finished or cancelling, with cancelled tokens |
| `TaskRuns.DismissEffect` | backend/src/tasks.rs:366-382 | A dismissed task is gone if it was finished; an unfinished one is untouched |
| `TaskRuns.PurgeEffect` | backend/src/tasks.rs:323-336 | No entry of the tab is left, their tokens are cancelled, other unfinished entries stay |
| `TaskRuns.RenameTabEffect` | backend/src/tasks.rs:337-349 | The entries of the tab have the new title, every other entry is untouched |
| `TaskRuns.CloseEffect` | backend/src/tasks.rs:397-405 | Closing empties entries and snapshot, and no entry of before ever comes back |
| `TaskRuns.StepInv` | backend/src/tasks.rs:183-405 | Every action keeps the invariant and moves entries only forward |
| `TaskRuns.ReachableStates` | backend/src/tasks.rs:183-405 | In every reachable state the snapshot equals the entries, ids are unique, finish times are set exactly on finished entries, Cancelling means a cancelled token, each tab has at most one unfinished entry, and at most a hundred are finished |
| `TaskRuns.EntriesMoveForward` | backend/src/tasks.rs:183-405 | Over every interleaving finished states are absorbing, Cancelling never returns to Running, and an id that is gone never reappears |
| `TaskEffects.SubmitExactly` | backend/src/tasks.rs:230-280 | A submission is accepted if and only if its title is not blank and its tab has no open task; then the task is shown queued with these fields, and otherwise nothing changes |
| `TaskEffects.StartEffect` | backend/src/tasks.rs:285-292 | A worker that starts has its queued task shown running, a cancelling one keeps its state, with the time, and every other field stays |
| `TaskEffects.FinishEffect` | backend/src/tasks.rs:299-309 | Success, interruption and failure are shown as succeeded, cancelled and failed with the error, with the time, and every other field stays; the entry is there unless a hundred finished ones are shown before it; a second end changes nothing |
| `TaskEffects.ProgressEffect` | backend/src/tasks.rs:118-132 | An open task shows the message, and the fraction only if it lies between 0 and 1; a finished one shows nothing new |
| `TaskEffects.NoticeEffect` | backend/src/tasks.rs:133-136 | The notice is shown and every other field stays |
| `TaskEffects.CancelExactly` | backend/src/tasks.rs:350-365 | Cancelling shows an open task as cancelling and does nothing to any other |
| `TaskEffects.DismissExactly` | backend/src/tasks.rs:366-382 | A dismissal is refused exactly for an open task; otherwise nothing is shown under that id and open tasks of other ids stay |
| `TaskEffects.PurgeExactly` | backend/src/tasks.rs:323-336 | A purged tab shows nothing, and open tasks of other tabs stay |
| `TaskEffects.RenameTabExactly` | backend/src/tasks.rs:337-349 | The entries of the tab have the new title and nothing else is changed |
| `TaskEffects.CancelledExactly` | backend/src/tasks.rs:323-405 | Which tokens each action cancels: those and no others; only closing closes |
| `TaskEffects.SnapshotInOrder` | backend/src/tasks.rs:183-210 | In every reachable state the snapshot shows open tasks first, then those that failed or were cancelled, then those that succeeded, the newest of each first, and at most a hundred that are not open |
| `TaskEffects.DroppedBehindHundred` | backend/src/tasks.rs:200-206 | An entry that a publication drops is finished, and a hundred finished ones are shown before it |
| `TaskEffects.EntriesTell` | backend/src/tasks.rs:230-349 | Over every run each shown entry tells what happened: its submission, its title or one that its tab was given, its start, its progress and notice, and if it is finished then a finishing action at that time with the outcome and the error that it shows |
| `VectorCodec.DecodeEncode` | ldaca-rs/src/embedding_cache.rs:161-178 | Every vector is read back bit for bit |
| `VectorCodec.EncodeDecode` | ldaca-rs/src/embedding_cache.rs:161-178 | A row decodes if and only if it is the encoding of a vector, namely of the decoded one |
| `VectorCodec.VectorToBlob` | ldaca-rs/src/embedding_cache.rs:161-168 | The byte-pushing loop computes the specified little-endian bytes |
| `VectorCodec.BlobBytes` | ldaca-rs/src/embedding_cache.rs:161-168 | Each value lies in the blob as its four bytes, the lowest first |
| `VectorCodec.BlobToVector` | ldaca-rs/src/embedding_cache.rs:169-178 | The chunk loop decodes as specified, and refuses rows of the wrong length |
| `TextCache.UniqueMisses` | ldaca-rs/src/cache.rs:123-138 | The loop collects the first text of each hash that is not cached, in order: exactly the texts at whose position their hash comes up first and is not among the cached ones |
| `TextCache.FoundExactly` | ldaca-rs/src/embedding_cache.rs:78-112 | A text is found exactly if the table holds a row under its key whose blob is four times as long as its dimension, and then with the decoded vector |
| `TextCache.MissingExactly` | ldaca-rs/src/cache.rs:123-138 | The misses of a call are, in order, exactly the first text of each hash whose row is absent or of another length |
| `TextCache.MissesCover` | ldaca-rs/src/cache.rs:123-138 | Misses are distinct, come from the texts, and with the cached hashes cover all of them |
| `TextCache.InsertFaithful` | ldaca-rs/src/embedding_cache.rs:114-158 | Insert-or-ignore of computed values keeps every row in agreement with the encoder |
| `TextCache.AnswerIsEncoded` | ldaca-rs/src/cache.rs:65-121 | Expanded in input order, the answer is the encoder mapped over the texts |
| `TextCache.Expand` | ldaca-rs/src/cache.rs:65-121 | Values come in input order, or not at all if one is missing |
| `TextCache.GetOrInsert` | ldaca-rs/src/cache.rs:65-121 | A call fails exactly if looking up fails, or computing or storing fails and some row is absent or of another length, and then stores nothing; otherwise it answers with the encoder mapped over its texts, keeps all rows that others stored meanwhile, and stores its misses; a call whose rows are all stored needs neither the encoder nor the store |
| `CacheProtocol.LeaseExcludesClear` | ldaca-rs/src/file_lock.rs:52-88 | While anyone holds a lease, in any process, no clear is under way |
| `CacheProtocol.StepInv` | ldaca-rs/src/file_lock.rs:20-88 | Every step of every actor keeps the locking, shape and data invariants |
| `CacheProtocol.CallsAnswerEncoder` | ldaca-rs/src/cache.rs:65-121 | In every interleaving a completed call answers with the encoder mapped over its texts |
| `CacheProtocol.RowsStayFaithful` | ldaca-rs/src/embedding_cache.rs:78-158 | In every interleaving stored rows agree with the encoder or do not decode |
| `CacheProtocol.LookupSurvives` | ldaca-rs/src/cache.rs:65-121 | In every interleaving no row that a call found vanishes or changes before the call has stored its own |
| `CacheProtocol.ClearsOnlyWhenIdle` | ldaca-rs/src/cache.rs:240-247 | Rows are removed only while no call holds a lease |
| `CacheProtocol.MissesEncodedOnce` | ldaca-rs/src/cache.rs:65-138 | In every interleaving a call asks the encoder at most once, for distinct texts of its own; by the time it stores these are exactly the texts that it did not find |
| `CacheProtocol.EncodesWhatIsNotStored` | ldaca-rs/src/cache.rs:65-138 | In every interleaving the encoder of a call is handed, in one call or in none, exactly the first texts of the hashes whose rows were absent or of another length in the table as it stood at some point of the run |
| `CacheProgress.RowsLeftBehind` | ldaca-rs/src/cache.rs:65-121 | In every interleaving, when a call is about to answer there is a row for each of its texts, and it holds what the encoder gives unless it does not decode |
| `CacheProgress.NobodyWaitsForEver` | ldaca-rs/src/file_lock.rs:20-88 | There is no deadlock between the leases, the mutexes and the lock file of any number of processes: while anybody has not ended, somebody can go on |
| `CacheProgress.StepsAreBounded` | ldaca-rs/src/file_lock.rs:20-88 | However calls and clears are scheduled, at most ten steps of each change anything |
| `CacheProgress.EverybodyCanEnd` | ldaca-rs/src/file_lock.rs:20-88 | From every state of every run there is a way on which all calls and clears end, without another failure of the encoder |
| `CacheProgress.GivesUpExactly` | ldaca-rs/src/file_lock.rs:66-88 | A clear gives up exactly if a call or another clear holds a lease, in its own process at its first try and anywhere at its second |
| `FileTree.RenameAt` | server/src/files.rs:224-234 | What is found at every path after a rename |
| `FileTree.RenameBack` | server/src/files.rs:224-234 | A rename can be undone, and undoing it restores the tree |
| `LibraryNames.JoinSplit` | server/src/files.rs:55-94 | Different names are different paths |
| `LibraryNames.SplitExactly` | server/src/files.rs:55-94 | The components of a name are the one list of texts without slashes that gives the name, joined by slashes |
| `LibraryNames.ValidNameExactly` | server/src/files.rs:343-364 | A name is valid exactly if it is not empty, does not begin with a dot or end with a dot or a space, has no control character and none that separates or matches paths, and does not name a device, in any case, alone or before its first dot |
| `LibraryNames.ResolveExactly` | server/src/files.rs:55-94 | A name has a path exactly if its components are all valid and all but the last are folders that exist |
| `LibraryNames.NameLeExactly` | server/src/files.rs:182-183 | The order of names: a beginning comes first, and otherwise the first difference decides |
| `LibraryNames.DedupSorted` | server/src/files.rs:182-183 | Sorting and dropping equal neighbours leaves each name once |
| `LibraryNames.KeptCovers` | server/src/files.rs:169-195 | Every requested path lies in one that is kept |
| `Files.Files.Selections` | server/src/files.rs:169-195 | Refuses exactly requests that are empty or name something missing or invalid; otherwise returns exactly the requested paths that lie in no other requested one, none inside another |
| `Files.Files.RunMoves` | server/src/files.rs:224-234 | Renames all, or, when one fails, undoes those before it in reverse order until undoing fails too: in the end exactly the renames up to there are made; every rename asked for is possible |
| `Files.Files.MoveFiles` | server/src/files.rs:196-235 | Refused exactly when the request makes no sense, failed exactly when a needed rename fails, and then, if no undoing fails, nothing changed, and else only some kept selections moved; otherwise each kept selection sits in the folder with all it held and everything else is where it was |
| `Files.Files.DeleteFiles` | server/src/files.rs:236-254 | Deletes exactly the selected subtrees, or, when a rename fails, nothing if no undoing fails, and else exactly those that undoing left behind |
| `Files.FailedDeletionLoses` | server/src/files.rs:236-254 | A failed deletion of two files in which undoing the first rename fails: the first file is gone for good |
| `Files.Files.CreateFolder` | server/src/files.rs:162-168 | Creates a folder in an existing one, or changes nothing |
| `Uploads.Host.Preflight` | server/src/files.rs:418-435 | Passes exactly if the selection is valid and no upload goes to a selected folder or inside one |
| `Uploads.Host.BeginUpload` | server/src/routes.rs:291-318 | Registers the existing receiving folder, or refuses |
| `Uploads.Host.Publish` | server/src/files.rs:282-330 | Ends with the first free numbered name, which is valid, and overwrites nothing |
| `Uploads.Host.MoveFiles` | server/src/routes.rs:495-508 | Under the gate: preflight, then move, or no change, or a part of the move if undoing fails |
| `Uploads.Host.DeleteFiles` | server/src/routes.rs:509-542 | Under the gate: preflight, then delete, or no change, or a part of the deletion if undoing fails |
| `Uploads.Host.MakeFolder` | server/src/routes.rs:480-494 | Under the gate: create a folder, or no change |
| `Uploads.CandidateValid` | server/src/files.rs:343-364 | Numbering never makes a valid name invalid |
| `Uploads.CandidateExactly` | server/src/files.rs:289-310 | The first candidate is the name itself; later ones have a decimal number before the last dot, or at the end if there is no dot |
| `Uploads.StepKeeps` | server/src/routes.rs:449-542 | Every step leaves each registered folder at its path, the same folder |
| `Uploads.FolderStays` | server/src/routes.rs:291-361 | Over every interleaving, from registration until it is dropped, an upload's folder is there and is the one that was there |
| `Uploads.DeletionNeedsUnused` | server/src/files.rs:418-435 | A deletion leaves every receiving folder where it is if and only if no upload goes to a selection or inside one |
| `Uploads.MoveNeedsUnused` | server/src/files.rs:418-435 | A move of a selection that is not yet in its destination takes away the receiving folder at or inside it |
| `Connections.Host.ChangeCredential` | backend/src/ai.rs:456-506 | Moves the key to where the new mode keeps it; a refused or failed change leaves everything |
| `Connections.Restored` | backend/src/ai.rs:509-532 | After any change of credential, restoring puts every key and secret back where it was |
| `Connections.RestoredRow` | backend/src/ai.rs:509-532 | The same after a removal |
| `Connections.Host.Create` | backend/src/ai.rs:263-294 | Succeeds exactly when allowed and no needed call fails, with the specified state; otherwise nothing changed |
| `Connections.Host.Update` | backend/src/ai.rs:296-320 | The same for every change of name and credential |
| `Connections.Host.SetConcurrency` | backend/src/ai.rs:321-339 | The same, for limits 1 to 32 |
| `Connections.Host.Delete` | backend/src/ai.rs:340-358 | The same for removals |
| `Connections.AfterKeys` | backend/src/ai.rs:409-415 | An operation gives its own connection the key asked for and leaves the rows and keys of all others; a removed connection leaves nothing behind |
| `Connections.RunInv` | backend/src/ai.rs:263-358 | Over every run with arbitrary failures and restarts disk equals memory, a session key exists only in session mode and a stored secret only in remembered mode |
| `Connections.KeyStays` | backend/src/ai.rs:263-358 | A connection's key stays what it is until an operation on that connection or a restart |
| `Connections.RestartKeys` | backend/src/ai.rs:203-250 | A restart keeps exactly the remembered keys |
| `ConnectionEffects.StepExactly` | backend/src/ai.rs:263-358 | A request is carried out if and only if none of the listed refusals applies and no call that it needs fails; then the row has the revision, the trimmed name, the provider, the endpoint without the slashes at its end, the mode of its credential and the concurrency that were asked for, or else those it had; the key is kept in one place only; nothing of other connections is touched and disk follows memory. Otherwise nothing changes |
| `ConnectionEffects.TrimSlashesExactly` | backend/src/ai.rs:278 | What is cut off an endpoint is all the slashes at its end and nothing else |
| `ConnectionEffects.RestartExactly` | backend/src/ai.rs:203-250 | A restart keeps the rows of a host with a disk and the stored secrets, and nothing else |
| `Pooling.PoolTokenEmbeddings` | ldaca-rs/src/embedding.rs:359-459 | Refuses exactly tensors whose shape, dimension or modes do not fit; otherwise pools each row of the flat tensor as specified |
| `Pooling.PoolOne` | ldaca-rs/src/embedding.rs:391-457 | The accumulating loops compute the specified row |
| `Pooling.PaddingIgnored` | ldaca-rs/src/embedding.rs:391-457 | Appending masked positions, or changing masked ones, leaves the pooled row unchanged, the first position excepted in CLS mode |
| `Pooling.ConstantRow` | ldaca-rs/src/embedding.rs:391-457 | Where all unmasked positions agree, maximum, mean, weighted mean and last token agree with them |
| `PoolingModes.MaxExactly` | ldaca-rs/src/embedding.rs:399-418 | Each maximum is the value of some unmasked position and at least that of every other; there is none exactly if all are masked |
| `PoolingModes.LastExactly` | ldaca-rs/src/embedding.rs:448-455 | The last position is unmasked and all behind it are masked; there is none exactly if all are masked |
| `PoolingModes.SumsExactly` | ldaca-rs/src/embedding.rs:420-436 | The sums are those of the values times their masks, and of the values times masks times places counted from 1 |
| `PoolingModes.PooledExactly` | ldaca-rs/src/embedding.rs:391-457 | A pooled row is as long as its modes ask, and each enabled mode gives its own block in order: the first vector, the largest values, the sums over the sum of the masks or its root, the weighted sums over the weights, the last unmasked vector; zeros where no position is unmasked, and sums divided by at least a billionth |
| `PoolingModes.CellAt` | ldaca-rs/src/embedding.rs:391-416 | Each value and mask of a row lies in the flat tensor where the shape says |
| `Batching.Encode` | ldaca-rs/src/embedding.rs:184-204 | For an encoder that gives each text its own vector, as the pipeline below does, chunking, padding and truncating to a fixed shape equals encoding each text |
| `Batching.EncodeBatches` | ldaca-rs/src/embedding.rs:1110-1117 | For every such encoder and every batch size the result is that of encoding each text, in order; size 0 is refused |
| `Batching.PipelineRowWise` | ldaca-rs/src/embedding.rs:206-293 | Tokenizing, cutting to the limit, padding, a model that heeds the attention mask, and pooling give every text the vector of its own tokens, whatever else is in the batch, to the longest row or to the limit; without any token it is zeros |
| `Batching.PipelineBatches` | ldaca-rs/src/embedding.rs:1110-1117 | Cutting a list of texts in two and encoding the parts gives the vectors of encoding it as one batch |
| `Batching.AloneExactly` | ldaca-rs/src/embedding.rs:206-293 | A text's own vector is that of all its tokens if they are within the limit, and else of those that cutting leaves, each with mask 1 |
| `Offsets.ByteSpansToCharSpans` | ldaca-rs/src/offsets.rs:20-50 | Each boundary becomes the naive count at the largest boundary seen so far |
| `Offsets.CountAtBoundary` | ldaca-rs/src/offsets.rs:76-78 | Counting undoes the conversion of a character index to a byte index |
| `Offsets.CountExactly` | ldaca-rs/src/offsets.rs:76-78 | Counting takes exactly the characters that begin before the byte |
| `Offsets.WidthExactly` | ldaca-rs/src/offsets.rs:20-50 | A character takes the fewest bytes that hold its code point in UTF-8, as in section 3 of RFC 3629 |
| `Offsets.NondecreasingExact` | ldaca-rs/src/offsets.rs:20-50 | If boundaries never go back, the sweep equals the naive conversion |
| `Offsets.ExactIff` | ldaca-rs/src/offsets.rs:14-50 | On spans of whole characters it does so if and only if boundaries never go back |
| `Offsets.StartOrderIsNotEnough` | ldaca-rs/src/offsets.rs:14-22 | Two spans ordered by start for which the result is wrong |

## Left out

- WalkKeepsRows: one direction; a view with a misclaimed reference may happen to keep its rows. The target must be another name, new to the view, in a schema that is not called like the database, and the catalogue must list exactly the stored tables; renames that change only the case of a name are not covered.
- Resolution of names: column lists of aliases, default names of unaliased subqueries and table functions, parameters of lambdas, USING, PIVOT, and joins that hide their right side are not modelled, and a reference to an alias of the select list, in an ORDER BY say, is not a reference of the model; of several items that have the column the leftmost is read, where DuckDB rejects the query.
- ReferenceStays: every qualifier of the view other than the source's is spelled unlike the target, a schema's or a database's name included.
- QuerySame: automatically generated labels are not modelled; the semantics is total where DuckDB would reject a query.
- CollectsFree: the order of the reported list is not modelled; PIVOT sources, which the walk neither reports nor replaces, are not modelled as tables.
- RenameKeepsEveryView: renaming a view is taken to keep its definition; the views' interfaces and the catalogue's metadata are not modelled.
- EditSubstitutes: one direction for whole edits, the references' part of which is exact; a stored edit that DuckDB refuses to define counts as one that denotes nothing.
- LexOrdered: positions count characters; the original counts bytes.
- DeleteFiles: the trash folder's name is taken to be new and its removal to succeed.
- Connections.RunInv: failed calls of the secret store are taken to have no effect and compensating calls to succeed; key lengths count characters; loading validates nothing.
- FolderStays: uploads to the project library, symbolic links and staged temporary files are not modelled.
- Changes.Finish: reading the dependency graphs from the database and refreshing publications are parameters.
- Batching.Encode: that the model gives each text its own vector is a hypothesis of this row; `PipelineRowWise` derives it for models that heed the attention mask and, in CLS mode, texts that have a token. Rounding, infinities and normalisation are not modelled; a fixed shape of no rows, on which the original stops, is excluded.
- PoolTokenEmbeddings: CLS pooling of a nonempty batch without any position, on which the original stops, is excluded; the square root is any function.
- Publish: the retry loop of `Uploads.Host.Publish` sees a free name and takes it in one step, under the gate.
- CallsAnswerEncoder: the hash is taken to be injective on the texts in play and the encoder to be deterministic; schema rebuilds and crashes are not modelled.
- ReachableStates: ids are taken to be new (random identifiers in the original); a worker's own children are not modelled.
- The query tree is a value: the original rewrites its JSON tree in place, so update order and aliasing of subtrees are not captured.
- `project_references_in`, which replaces a table by a projection when a column is renamed: a second rewriting by the same walk, whose new qualifier is not new to the view; portable DDL and SELECT, and generated columns: further users of the walk and the lexer.
- Qualifiers of stars are lists of parts; joining them with dots and lexing them again is not modelled.
- HTTP routing, authentication, worker containers, expression views, provider clients, downloads, preferences and the frontend: no algorithmic content of their own, or foreign behaviour.
