# Verification of the dbt-sqlserver decision logic

This project models the parts of the SQL Server adapter that decide: which indexes to drop and create,
which cached token to hand out, how SQL and connection strings are cut and escaped, when a cursor must
be drained, what the transaction bracket guarantees, which column types may widen into which, and how
masks and denies are reconciled. `dafny verify dfyconfig.toml` checks everything.

Code that works step by step is a method with the source's loops, proved equal to a function of its
inputs; the theorems are about that function. Shared or long-lived state is a class whose methods are
proved against the step functions of a state machine, and the theorems are about every run of it.

## The modules

- `IndexConfig` parses and validates one index and renders its managed name, a hash of an identity
  payload. The hash is any injective function of the payload.
- `IndexReconcile` is the diff: rows of a table against the configured indexes, with the drop modes, the
  protected rows, the legacy prefixes and the guard of the one clustered slot.
- `IndexConvergence` runs the resulting statements on a table and shows that one reconcile settles it.
- `IndexRuns` takes whole runs, with changes from outside between reconciles, statement by statement.
- `TokenCache` is the two-lock-region protocol as atomic steps of any number of threads over a monotone
  clock; a load is an arbitrary token that arrives later, or an exception.
- `Quoting`, `SqlScanner`, `RowCounting` and `QueryRetry` are the span scanner and what is built on it:
  placeholder rewriting, statement splitting, DML detection and the retry recursion.
- `ConnectionString`, `ConnectionPrefix` and `ConnectionBuilder` split, escape, redact and assemble connection
  strings; `ConnectionReadback`, `CredentialLogging` and `OpenBraceLogging` say exactly when credentials are
  read back and when the log hides them.
- `Draining` and `Transactions` are the cursor (PEP 249, "Cursor Objects") and the server: a durable log
  and at most one open transaction, which an attention rolls back. `ColumnSchema` reads the columns of a query
  off a describe or off the executed query.
- `ColumnTypes` is the expansion order with the values each numeric type stores; `ColumnExpansion` says which
  expansions are accepted in terms of those values, and alters the columns of a relation.
- `Masks` and `Denies` are the two case-insensitive reconciliations with a server that may keep another
  spelling.
- `Text`, `Dict` and `Sorting` are Python's string functions, insertion-ordered dictionaries and
  `sorted` on strings.

## Where the code does less than it seems to

Each of these is proved as an exact condition or a counterexample:

- A retried ADBC query repeats its text only if no placeholder was left over
  (`QueryRetry.RetriesRepeatIff`, `QueryRetry.UnderboundRetryDiffers`): the retry rewrites text that is already
  rewritten.
- `where: ""` and no `where` have the same managed name but compare different, so declaring both is
  reported as a name collision (`IndexConvergence.CollisionIff`). The docstring of `render` says name
  equality is definition equality; that holds up to this.
- A decimal with exactly 15 (6) integer digits is accepted into money (smallmoney), whose range is smaller
  (`ColumnTypes.SafeExpansionLosesNothing`). A money column is not widened to the decimal of 19 digits, 4 of them
  behind the point, although that holds more, char is never widened to varchar, and the synonym `integer` only
  into decimals (`ColumnExpansion.NumbersExpandIff`, `ColumnExpansion.StringsExpandIff`).
- An mssql-python value ending in whitespace other than a space is written bare and stripped when split
  (`ConnectionBuilder.BuildSplitRoundTrip`).
- Host, database or driver text that leaves a brace open in front of the credentials makes the open part
  swallow them, and the log shows what it swallowed (`CredentialLogging.LoggedStringHidesCredentials`). With a
  database name such as `name{`, pyodbc logs the user (`OpenBraceLogging.OpenDatabaseShowsUser`) and
  mssql-python logs the user and the whole password (`OpenBraceLogging.OpenDatabaseShowsPassword`).
- A query that succeeds on a retry inside a transaction has lost that transaction: the failed attempt rolled
  it back under `XACT_ABORT ON` while `transaction_open` stayed set (`Transactions.QueryBracketSafeIff`,
  `Transactions.RetryLosesEarlierWork`). `retryable_exceptions` of `add_query` is `()` by default and no call in
  the repository passes any, so this, like the retry above, takes an outside caller of `add_query`; it also
  takes a profile that leaves `xact_abort` on.
- A describe that the server refuses, such as one of a CTE over a `#temp` table, releases the connection
  although its error is swallowed: inside a transaction the work done so far is lost and the call goes on
  (`ColumnSchema.GetColumnSchemaFromQuery`, `ColumnSchema.RefusedDescribe`).
- A comment that begins with a slash, `/*/`, is taken to end there, so DML behind its real end gets no row
  count (`RowCounting.CommentEndIff`, `RowCounting.SlashCommentMissesDelete`).
- With several spellings of one column among the model keys, a null opt-out or a column value takes only the
  first away, and a later one may win (`Masks.OptOutRemovesIff`, `Masks.ColumnValueUsedIff`).
- An emptied deny config revokes nothing (`Denies.DeniesReachWanted`), an emptied masks config drops nothing
  (`Masks.ApplyMasksReachesIff`), and a principal written with surrounding blanks is looked up
  without them but denied with them (`Denies.AcceptedIff`).
- A driver that cannot advance leaves further result sets unread, so closing still rolls back
  (`Draining.DiscardPendingResults`).

## Model

| member | source | states |
|---|---|---|
| IndexConfig.Render | dbt/adapters/sqlserver/relation_configs/index.py:344-384 | filling the identity dictionary key by key, optional keys only when set, names the index by the hash of exactly the payload that `PayloadOf` describes |
| IndexConfig.PayloadSays | dbt/adapters/sqlserver/relation_configs/index.py:355-385 | which keys stand in the payload and what they hold: the relation, the columns in order, sets as lists, and type, filter, compression and flags only where they depart from the default |
| IndexConfig.PayloadFaithful | dbt/adapters/sqlserver/relation_configs/index.py:344-384 | two validated definitions have the same identity payload exactly when they are equal, an empty filter counting as none; so build options never matter and moving a key column to the included columns always does |
| IndexConfig.PayloadFixesShape | dbt/adapters/sqlserver/relation_configs/index.py:355-384 | equal payloads force equal key columns, type, uniqueness and included columns, validated or not |
| IndexConfig.NameFaithful | dbt/adapters/sqlserver/relation_configs/index.py:344-384 | under an injective hash, two validated configs get the same managed name exactly when their definitions are equal, an empty filter counting as none |
| IndexConfig.NormalizeColumns | dbt/adapters/sqlserver/relation_configs/index.py:273-286 | the loop over mixed column entries yields the names in order, the descending ones, and no names when an entry is malformed |
| IndexConfig.ParseAcceptsIff | dbt/adapters/sqlserver/relation_configs/index.py:154-263 | parsing accepts exactly the dictionaries whose raw fields satisfy every rule, stated on those fields; the error tells a non-dictionary from an invalid config |
| IndexConfig.ParsedMeaning | dbt/adapters/sqlserver/relation_configs/index.py:386-415 | what an accepted config holds, field by field: the columns in order, as descending every column named so either way, the included ones as a set, the type with its default, the compression lower-cased with `none` as none, and every other field as written |
| IndexConfig.ParsedNormal | dbt/adapters/sqlserver/relation_configs/index.py:265-271 | every config that parsing returns is valid and has normalised compression |
| IndexConfig.NodeConfigRoundTrip | dbt/adapters/sqlserver/relation_configs/index.py:320-342 | feeding the node config of a parsed config back through parsing gives the same definition, the same managed name and the same own-batch decision; only an empty build-options dictionary comes back as none |
| IndexConfig.NeedsOwnBatch | dbt/adapters/sqlserver/relation_configs/index.py:51-59 | true exactly when `online` or `resumable` is among the options with a value that is neither false, zero nor empty |
| IndexReconcile.NormalizeDropUnmanaged | dbt/adapters/sqlserver/relation_configs/index.py:62-72 | fails exactly for texts other than the three modes; a boolean means its text |
| IndexReconcile.IndexConfigChanges | dbt/adapters/sqlserver/relation_configs/index.py:476-611 | the four loops and the clustered guard compute `ConfigChanges`: all drops, then all creates, the warnings, or the first error; the next three rows say what the drops, the warnings and the creates are |
| IndexReconcile.DiffDrops | dbt/adapters/sqlserver/relation_configs/index.py:528-555 | a name is dropped exactly when it is the name of a row that no config names, that is no primary key, no unique constraint and no `clustered columnstore`, and it begins with `dbt_idx_`, or the setting is true and it begins with neither `clustered_` nor `nonclustered_` |
| IndexReconcile.DiffWarnings | dbt/adapters/sqlserver/relation_configs/index.py:528-561 | a warning is given exactly under `warn`, for the name and columns of a row that no config names, that backs no constraint, is no clustered columnstore, and begins with none of the three prefixes |
| IndexReconcile.DiffCreates | dbt/adapters/sqlserver/relation_configs/index.py:563-611 | what is created are configs whose managed name no row has, one for the definition of every such config, all behind the drops |
| IndexReconcile.CollectExpected | dbt/adapters/sqlserver/relation_configs/index.py:514-527 | the expected configs by managed name, or the first name collision between different definitions |
| IndexReconcile.JudgeRows | dbt/adapters/sqlserver/relation_configs/index.py:528-561 | the names of all rows, and in order the drops and warnings of the rows judged so; the contract of `Judge` writes out the kinds, prefixes and modes |
| IndexReconcile.ValidateIndexes | dbt/adapters/sqlserver/sqlserver_adapter.py:750-777 | reports a bad mode, then the first parse error, then more than one clustered config, then a clustered config beside a clustered columnstore table; the next row says which requests pass |
| IndexReconcile.ValidRequestIff | dbt/adapters/sqlserver/sqlserver_adapter.py:750-777 | a request passes exactly when its setting is known, every entry that is not null is acceptable, at most one asks for a clustered index, and none does beside a columnstore table |
| IndexReconcile.ParseFromSucceedsIff | dbt/adapters/sqlserver/sqlserver_adapter.py:757-763 | parsing the config succeeds exactly when every entry that is not null parses |
| IndexReconcile.ParsedInOrder | dbt/adapters/sqlserver/sqlserver_adapter.py:757-763 | the parsed configs are those of the entries that are not null, all of them and in order |
| IndexReconcile.SlotKinds | dbt/adapters/sqlserver/relation_configs/index.py:572-580 | the rows whose kind begins with `clustered` occupy the slot, clustered columnstores among them; nonclustered kinds and heaps do not |
| IndexReconcile.IndexChanges | dbt/adapters/sqlserver/sqlserver_adapter.py:779-826 | parses the config (null entries skipped), diffs, and sorts the changes into drops, transactional creates and own-batch creates |
| IndexReconcile.ExpectedMeaning | dbt/adapters/sqlserver/relation_configs/index.py:514-527 | when collection succeeds there is one config per name, each under its own name and taken from the list, and every config of the list is represented with its definition |
| IndexConvergence.LastConfigWins | dbt/adapters/sqlserver/relation_configs/index.py:514-527 | among configs with the same name the last one is used, with its build options |
| IndexConvergence.CollisionIff | dbt/adapters/sqlserver/relation_configs/index.py:518-527 | with an injective hash the collision error is raised exactly when two configs agree except that one has an empty filter and the other none |
| IndexConvergence.EmptyFilterCollides | dbt/adapters/sqlserver/relation_configs/index.py:518-527 | every accepted index without a filter is also accepted with an empty one, and declaring both raises the collision error, whatever the hash |
| IndexReconcile.DropNamesIff | dbt/adapters/sqlserver/relation_configs/index.py:532-555 | a name is dropped exactly when some row of that name is judged droppable |
| IndexReconcile.WarningsIff | dbt/adapters/sqlserver/relation_configs/index.py:556-561 | a warning is printed exactly for a row judged so |
| IndexConvergence.CreatesOfIff | dbt/adapters/sqlserver/sqlserver_adapter.py:806-819 | a node config is in the transactional, or the own-batch, list exactly when it belongs to a create with that own-batch decision |
| IndexConvergence.CreatesSplit | dbt/adapters/sqlserver/sqlserver_adapter.py:806-819 | of a successful reconcile, the creates in the transaction have no online or resumable build and those to run on their own have one |
| IndexConvergence.CreatesMeaning | dbt/adapters/sqlserver/sqlserver_adapter.py:806-819 | both create lists together hold exactly the node configs of the missing expected configs |
| IndexConvergence.TargetOfNode | dbt/include/sqlserver/macros/adapters/indexes.sql:284-299 | the create statement rendered from an expected node config makes the index with exactly that name and definition |
| IndexConvergence.FollowingSettles | dbt/include/sqlserver/macros/adapters/indexes.sql:548-570 | running drops and then guarded creates leaves exactly the expected names and the rows not judged droppable; old rows are unchanged and new rows are those of the expected definitions |
| IndexConvergence.Converges | dbt/adapters/sqlserver/relation_configs/index.py:510-611 | a successful reconcile leaves every expected index, removes every unexpected managed index that backs no constraint, never touches a primary key, unique constraint, clustered columnstore or legacy-prefixed row in any mode, and outside the drop mode touches nothing unmanaged; in the drop mode nothing is left but expected indexes, rows that back a constraint, clustered columnstores and legacy prefixes |
| IndexConvergence.ConvergesTo | dbt/adapters/sqlserver/relation_configs/index.py:528-611 | exactly which rows are gone afterwards, in terms of kind, constraint flags, prefixes and setting; the others are unchanged and the new ones have the type of their config |
| IndexConvergence.WarnedExactly | dbt/adapters/sqlserver/relation_configs/index.py:556-561 | exactly which rows a reconcile warns about, in the same terms |
| IndexConvergence.SecondReconcileDoesNothing | dbt/adapters/sqlserver/relation_configs/index.py:510-611 | the same request on the result, however its rows are listed, succeeds with no changes, repeats exactly the same warnings and leaves the table as it is |
| IndexRuns.BlockedIff | dbt/adapters/sqlserver/relation_configs/index.py:563-587 | a validated request without collisions is refused exactly when it must create a clustered index while an unexpected clustered row stays |
| IndexRuns.BlockedBy | dbt/adapters/sqlserver/relation_configs/index.py:563-587 | the error names exactly the rows in the slot that nobody expects and that are not dropped |
| IndexRuns.ValidatedOneClustered | dbt/adapters/sqlserver/sqlserver_adapter.py:764-770 | a validated request expects at most one clustered index |
| IndexRuns.ReconcileKeepsSlot | dbt/adapters/sqlserver/relation_configs/index.py:563-587 | from a table with at most one clustered index and truthful managed names, that holds after every single statement of a reconcile, and the server accepts each statement: no drop of an absent index, no second clustered index |
| IndexRuns.RefusedThenConverges | dbt/include/sqlserver/macros/adapters/indexes.sql:543-570 | when the server refuses a statement, the transactional batch is undone whole or the own-batch creates before it stay; a reconcile of the same request after that succeeds and ends where the first would have |
| IndexRuns.RunsKeepSlot | dbt/include/sqlserver/macros/adapters/indexes.sql:525-572 | the same over every run of reconciles (any settings, any listing of the rows, refused at any statement or not) and outside creates and drops |
| IndexRuns.ProtectedSurvives | dbt/adapters/sqlserver/relation_configs/index.py:538-553 | over every such run a primary key, unique constraint, clustered columnstore or legacy index stays unchanged unless an outside drop removes it |
| IndexRuns.RepeatsChangeNothing | dbt/include/sqlserver/macros/adapters/indexes.sql:525-572 | after one successful reconcile, any number of reconciles of the same request changes nothing more |
| TokenCache.RuntimeState.TryCached | dbt/adapters/sqlserver/sqlserver_runtime.py:200-214 | the first region returns the cached token exactly when at least the buffer of seconds is left of it |
| TokenCache.RuntimeState.AdoptOrStore | dbt/adapters/sqlserver/sqlserver_runtime.py:216-221 | afterwards the key holds the returned token, which is the cached one if at least the buffer of its lifetime is left and otherwise the loaded one; no other key is touched |
| TokenCache.RuntimeState.GetCachedAccessToken | dbt/adapters/sqlserver/sqlserver_runtime.py:200-221 | the returned token was loaded by this call or has at least the buffer of seconds left at the start or at the end. A cached token with that much left at the start is the one returned and nothing changes; one with less is not returned from the first region. Afterwards the key holds the returned token, and keys of no call are untouched |
| TokenCache.RuntimeState.ResetAccessTokenCache | dbt/adapters/sqlserver/sqlserver_runtime.py:160-162 | a reset empties the cache |
| TokenCache.FreshTokenStays | dbt/adapters/sqlserver/sqlserver_runtime.py:200-221 | in every interleaving a cached token with at least the buffer of seconds left is replaced by no event but a reset, not even by a call that missed earlier and loaded another token meanwhile |
| TokenCache.CallsAgree | dbt/adapters/sqlserver/sqlserver_runtime.py:200-221 | in every interleaving, once a call returned a token, every call for that key that returns while at least the buffer of seconds is left of it returns the same token |
| TokenCache.StoredTokenIsReturned | dbt/adapters/sqlserver/sqlserver_runtime.py:200-221 | the same from any point where the token is in the cache |
| TokenCache.ReturnedTokenIsSound | dbt/adapters/sqlserver/sqlserver_runtime.py:200-221 | a returned token either has at least the buffer of seconds left at that moment or was loaded for the same key by the returning call itself |
| TokenCache.OnlyOwnKeyChanges | dbt/adapters/sqlserver/sqlserver_runtime.py:314-342 | an event changes the entry of a key only when it is a call for that key returning the new token, and only if less than the buffer was left of the old one |
| TokenCache.ResetForgets | dbt/adapters/sqlserver/sqlserver_runtime.py:160-162 | behind a reset a cached token was stored later, by the decision of a call that loaded it |
| TokenCache.CallsAccounted | dbt/adapters/sqlserver/sqlserver_runtime.py:200-221 | over every interleaving the calls a thread entered are those that returned, those whose loader raised and the one it is in: none is lost and none returns twice |
| Quoting.SkipQuotedSpan | dbt/adapters/sqlserver/sqlserver_connections.py:79-98 | the scanning loop returns the end of the span that opens at the position, or nothing when none opens |
| Quoting.SpanEnds | dbt/adapters/sqlserver/sqlserver_connections.py:79-98 | a span closes at exactly one place, the one the scanner finds, or it has none and runs to the end |
| Quoting.EscapeThenScan | dbt/adapters/sqlserver/sqlserver_connections.py:79-98 | an opener, a text with its closing quote doubled and the closing quote, followed by anything not starting with that quote, is exactly one span |
| Quoting.UndoubledDoubled | dbt/adapters/sqlserver/sqlserver_adapter.py:349-351 | doubling a quote character is undone by undoubling, for every text |
| Quoting.UnquoteQuoted | dbt/adapters/sqlserver/sqlserver_relation.py:29-36 | reading a quoted identifier back gives the identifier and what follows, for any quote character |
| Quoting.QuotersAgree | dbt/adapters/sqlserver/sqlserver_adapter.py:398-412 | the adapter and the relation quoter render the same text for the double quote, and it can be undone |
| Quoting.DottedInjective | dbt/adapters/sqlserver/sqlserver_relation.py:29-36 | a dotted path of quoted parts determines its parts, whatever dots and quotes they contain |
| SqlScanner.ReplaceQmark | dbt/adapters/sqlserver/sqlserver_connections.py:101-131 | the rewriting loop computes `Rewrite`, which the next row describes without it |
| SqlScanner.RewriteWeaves | dbt/adapters/sqlserver/sqlserver_connections.py:101-131 | text and output are the same pieces, no piece holding a placeholder; between them the text has a `?` each, and the output `@p` and the numeral of k in the k-th gap up to `num_bindings`, without leading zero, and `?` beyond |
| Text.DigitsReadBack | dbt/adapters/sqlserver/sqlserver_connections.py:125 | the numeral printed for a number reads back as that number and has no leading zero |
| Text.LowerLetters | dbt/adapters/sqlserver/sqlserver_deny.py:31-32 | folding case pairs the letters of the alphabet and moves nothing else |
| Text.AsciiSpaces | dbt/adapters/sqlserver/sqlserver_deny.py:31-32 | the ASCII characters that stripping removes |
| SqlScanner.RewriteStable | dbt/adapters/sqlserver/sqlserver_connections.py:101-131 | rewriting the output again changes nothing exactly when there are no more placeholders than bindings, or no bindings |
| SqlScanner.ItemsRender | dbt/adapters/sqlserver/sqlserver_connections.py:79-98 | cutting a text into spans and other characters loses nothing and is stable under re-reading |
| SqlScanner.QuotedIsOneItem | dbt/adapters/sqlserver/sqlserver_connections.py:79-98 | a single-quoted literal and a bracketed identifier are one item each, whatever they contain, and any other character is an item by itself |
| SqlScanner.SplitSqlStatements | dbt/adapters/sqlserver/sqlserver_connections.py:134-154 | the splitting loop computes `Statements` |
| SqlScanner.SplitLossless | dbt/adapters/sqlserver/sqlserver_connections.py:134-154 | joining the statements with `;` gives the text back |
| SqlScanner.PieceIsWhole | dbt/adapters/sqlserver/sqlserver_connections.py:134-154 | each statement splits to itself |
| SqlScanner.SplitCompositional | dbt/adapters/sqlserver/sqlserver_connections.py:134-154 | splitting distributes over `;` exactly when the left text leaves no span open |
| RowCounting.StripLeading | dbt/adapters/sqlserver/sqlserver_connections.py:194-208 | the comment-stripping loop terminates and computes `Bare` |
| RowCounting.BareDropsTrivia | dbt/adapters/sqlserver/sqlserver_connections.py:196-208 | what is dropped in front is whitespace and comments as the loop delimits them and nothing else, and what is left starts with neither |
| RowCounting.CommentEndIff | dbt/adapters/sqlserver/sqlserver_connections.py:196-202 | the loop ends a block comment where SQL does exactly when no slash follows its opener |
| RowCounting.SlashCommentMissesDelete | dbt/adapters/sqlserver/sqlserver_connections.py:196-210 | an input where it does not: a delete behind such a comment is not seen |
| RowCounting.TriviaIsDropped | dbt/adapters/sqlserver/sqlserver_connections.py:196-208 | any run of whitespace and comments in front of a statement makes no difference |
| RowCounting.SqlAffectsRows | dbt/adapters/sqlserver/sqlserver_connections.py:180-211 | true exactly when some statement of the batch leads with counted DML |
| RowCounting.LeadsWithDmlIff | dbt/adapters/sqlserver/sqlserver_connections.py:209-210 | a statement leads with counted DML exactly when it begins with insert, update, delete or merge in any case |
| RowCounting.AffectsRowsCompositional | dbt/adapters/sqlserver/sqlserver_connections.py:180-211 | a batch `a;b` affects rows exactly when one of its halves does, if `a` leaves no span open |
| QueryRetry.AttemptsBounded | dbt/adapters/sqlserver/sqlserver_connections.py:617-662 | at least one and at most `retries` attempts are made, all but the last ended in a retryable error, and such an error surfaces only when all were spent |
| QueryRetry.FirstSent | dbt/adapters/sqlserver/sqlserver_connections.py:633-650 | what the driver gets first: the bindings in order, a datetime as its ISO text, and the text unchanged unless it is rewritten for ADBC |
| QueryRetry.RetriesRepeatTheRequest | dbt/adapters/sqlserver/sqlserver_connections.py:617-662 | every attempt sends the same text and bindings exactly when there was one attempt or the first rewrite numbered every placeholder |
| QueryRetry.RetriesRepeatIff | dbt/adapters/sqlserver/sqlserver_connections.py:617-662 | whatever the driver answers, every attempt sends the same text and bindings: exactly when one attempt is allowed or the first rewrite numbers every placeholder |
| QueryRetry.UnderboundRetryDiffers | dbt/adapters/sqlserver/sqlserver_connections.py:633-650 | with one placeholder more than bindings a retried ADBC query does not send the text it sent first |
| ConnectionString.SplitConnectionStringParts | dbt/adapters/sqlserver/sqlserver_helpers.py:155-186 | the scanning loop computes `Parts` |
| ConnectionString.SplitStable | dbt/adapters/sqlserver/sqlserver_helpers.py:155-186 | splitting the re-joined parts of any string gives the same parts |
| ConnectionString.PartsOfChain | dbt/adapters/sqlserver/sqlserver_helpers.py:155-186 | joining parts that are each whole before the next and splitting gives them back |
| ConnectionString.SanitizeForLogging | dbt/adapters/sqlserver/sqlserver_helpers.py:271-283 | the redacting loop computes `Sanitized` |
| ConnectionString.SanitizeKeepsParts | dbt/adapters/sqlserver/sqlserver_helpers.py:271-283 | for every string the logged form splits into the same number of parts in the same order, each the redaction of the original, so other parts are unchanged |
| ConnectionString.SanitizeIdempotent | dbt/adapters/sqlserver/sqlserver_helpers.py:271-283 | sanitizing twice is sanitizing once, for every string |
| ConnectionString.SensitiveIff | dbt/adapters/sqlserver/sqlserver_helpers.py:278-280 | the redacted keys are thirteen words, in any case, whatever underscores and spaces stand in them |
| ConnectionBuilder.ReadFormatted | dbt/adapters/sqlserver/sqlserver_helpers.py:189-193 | reading a formatted value back gives the original text, runs of braces and semicolons included, in both forms |
| ConnectionBuilder.BareIff | dbt/adapters/sqlserver/sqlserver_helpers.py:189-193 | a value is written bare exactly in the mssql-python form and without brace, `;` or space at an end; else in braces with the closing one doubled |
| ConnectionBuilder.FormattedSound | dbt/adapters/sqlserver/sqlserver_helpers.py:248-259 | every formatted value stays one part wherever it stands |
| ConnectionBuilder.BuildSplitRoundTrip | dbt/adapters/sqlserver/sqlserver_helpers.py:155-193 | joining formatted settings and splitting gives the same parts exactly when every value keeps its end: in the bare mssql-python form it must not end in whitespace other than a space |
| ConnectionBuilder.SecretsAreInvisible | dbt/adapters/sqlserver/sqlserver_helpers.py:271-283 | of two strings of sound fields that differ only under sensitive keys, the same text is logged |
| ConnectionBuilder.BuilderFailsIff | dbt/adapters/sqlserver/sqlserver_backend.py:52-144 | the builders raise exactly for a password with a managed identity or integrated login and, on mssql-python, for credentials beside a Windows login |
| ConnectionBuilder.ServerArgMeaning | dbt/adapters/sqlserver/sqlserver_helpers.py:236-245 | the server token is the trimmed host and, behind a comma, the numeral of the port, which is left out for a host with a backslash and for no port or port zero |
| ConnectionBuilder.ActiveDirectoryIff | dbt/adapters/sqlserver/sqlserver_auth.py:60-63 | a label of one word is an ActiveDirectory mode exactly when it begins so, in any case |
| ConnectionPrefix.PartsAcross | dbt/adapters/sqlserver/sqlserver_helpers.py:155-186 | what splitting makes of a fixed beginning and any text behind it: the parts the beginning settles, then its open part continued to where the scan first ends it |
| CredentialLogging.LoggedStringHidesCredentials | dbt/adapters/sqlserver/sqlserver_backend.py:52-197 | for either backend, the logged string is the same for every choice of credentials exactly when none are sent, or the text in front of them closes its braces, or, with pyodbc, the part it leaves open is redacted itself |
| ConnectionReadback.CredentialsReadBack | dbt/adapters/sqlserver/sqlserver_backend.py:52-197 | for either backend and every mode that sends credentials, splitting the string and undoing the braces gives back user and secret for every choice that keeps its end exactly when the text in front closes its braces and names no UID or PWD; then it gives back exactly those that keep their end |
| ConnectionReadback.PlainProfileIsClear | dbt/adapters/sqlserver/sqlserver_backend.py:52-197 | host, database and driver without separators meet both conditions |
| ConnectionReadback.SilentModeReadsNothing | dbt/adapters/sqlserver/sqlserver_backend.py:52-144 | a mode that sends no credentials puts none into the string exactly when driver, host and database name none, in their parts or in the part they leave open |
| ConnectionReadback.TargetReadsBack | dbt/adapters/sqlserver/sqlserver_backend.py:52-197 | server, database and the encryption settings of such a profile are read back, each under its own key |
| ConnectionReadback.ModeReadsBack | dbt/adapters/sqlserver/sqlserver_backend.py:69-125 | the authentication label is read back in the ActiveDirectory modes but the access token, a trusted connection for a Windows login, and neither in the others |
| ConnectionReadback.SettingsReadBack | dbt/adapters/sqlserver/sqlserver_backend.py:147-176 | the pyodbc string gives back the driver name without braces, the application name, and the fixed pooling, trace and retry settings |
| ConnectionReadback.BuildPyodbcConnectionString | dbt/adapters/sqlserver/sqlserver_backend.py:147-176 | fails exactly when the profile is refused; else the string is the assembled fields, logs as stated, gives back exactly the credentials that keep their end behind a clear front, none in a silent mode, and server and database of a plain profile |
| ConnectionReadback.BuildMssqlPythonConnectionString | dbt/adapters/sqlserver/sqlserver_backend.py:179-197 | the same for the mssql-python form |
| OpenBraceLogging.OpenDatabaseShowsUser | dbt/adapters/sqlserver/sqlserver_backend.py:129-176 | pyodbc, SQL login, a database name ending in an open brace: the log contains the user, and profiles with different users log differently |
| OpenBraceLogging.OpenDatabaseShowsPassword | dbt/adapters/sqlserver/sqlserver_backend.py:129-197 | mssql-python and a user that needs no braces: the log contains the user and the whole password, and profiles with different passwords log differently |
| Draining.Cursor.TryDrainNextSet | dbt/adapters/sqlserver/sqlserver_connections.py:214-234 | advances exactly when there is a next set and the driver supports it; the not-supported error reads as no |
| Draining.Drain | dbt/adapters/sqlserver/sqlserver_connections.py:258-272 | terminates on every cursor; without driver failure it reads all rows, and something stays unread exactly when the driver cannot advance to further sets |
| Draining.DiscardPendingResults | dbt/adapters/sqlserver/sqlserver_connections.py:239-282 | closes the cursor exactly once and never raises, with or without driver failure; the transaction is rolled back exactly when something was left unread under `XACT_ABORT ON` |
| ColumnSchema.DescribeResultSet | dbt/adapters/sqlserver/sqlserver_adapter.py:324-396 | returns columns exactly when the describe can be read, has the three fields and at least one visible row, and no visible row has a null name or an unknown type; then they are those of its visible rows, one for one and in order. A cursor obtained is closed once; a reliable one leaves the connection as it was, and a describe that raises leaves it released |
| ColumnSchema.TrustedMeaning | dbt/adapters/sqlserver/sqlserver_adapter.py:370-396 | columns are returned exactly when no field is missing, some row is visible and no visible row is doubtful, and then they are read off the visible rows |
| ColumnSchema.DescribedFromRows | dbt/adapters/sqlserver/sqlserver_adapter.py:378-390 | the columns correspond one for one and in order to the rows that are not hidden: the name is the text of the name cell, the type what the adapter knows for the lower-cased, stripped text in front of the parenthesis of the type cell |
| ColumnSchema.DescribedNoneIff | dbt/adapters/sqlserver/sqlserver_adapter.py:383-389 | the fall-back is taken exactly when a visible row has a null name or an unknown type |
| ColumnSchema.GetColumnSchemaFromQuery | dbt/adapters/sqlserver/sqlserver_adapter.py:289-322 | the query runs unless it leads with a CTE, comments aside, whose describe can be trusted as in the row above; described columns are those of the visible rows, executed ones those of the description, name by name; each cursor obtained is closed exactly once on every path; when those are reliable, the connection, its open transaction and the work in it are as before if and only if no query sent raised or nothing was open |
| ColumnSchema.NamedColumns | dbt/adapters/sqlserver/sqlserver_adapter.py:309-316 | reading the columns off a description raises exactly when a type code has no name; else each column has the name of its description and the name of its code |
| ColumnSchema.KeepsOutside | dbt/adapters/sqlserver/sqlserver_adapter.py:53 | removing the comments keeps exactly the characters outside them, however the text is taken apart into comments and characters |
| ColumnSchema.TakenApart | dbt/adapters/sqlserver/sqlserver_adapter.py:53 | every text can be taken apart so |
| ColumnSchema.LeadsWithCteIff | dbt/adapters/sqlserver/sqlserver_adapter.py:304 | a query leads with a CTE exactly when the text outside its comments, stripped, begins with the word in any case |
| ColumnSchema.RefusedDescribe | dbt/adapters/sqlserver/sqlserver_adapter.py:353-357 | the witness: a describe that the server refuses inside a transaction; the call returns the columns of the executed query and the work before it is gone |
| Transactions.Connection.AddSelectQuery | dbt/adapters/sqlserver/sqlserver_connections.py:385-419 | a select that raises releases the connection; one that does not changes nothing |
| Transactions.RaisingSelectIsFailingQuery | dbt/adapters/sqlserver/sqlserver_connections.py:385-419 | it leaves what any failing query without auto-begin leaves |
| Transactions.SelectSurvivedIff | dbt/adapters/sqlserver/sqlserver_connections.py:385-419 | a select changes nothing exactly when it does not raise or nothing was open |
| Transactions.RaisedSelectLosesWork | dbt/adapters/sqlserver/sqlserver_connections.py:385-419 | behind a select that raised inside a transaction the work before it is gone for good, the trailing commit raises, and later statements without auto-begin are durable on their own |
| Transactions.SaneKept | dbt/adapters/sqlserver/sqlserver_connections.py:564-600 | over every run the server has at most one transaction, only with the flag on and `transaction_open` set |
| Transactions.BracketKept | dbt/adapters/sqlserver/sqlserver_connections.py:564-600 | `transaction_open` says throughout a run whether the server has its transaction exactly when no query of the run succeeds on a retry inside one |
| Transactions.QueryBracketSafeIff | dbt/adapters/sqlserver/sqlserver_connections.py:617-662 | a call keeps the bracket, whatever the driver answers, exactly when it allows one attempt only, or the flag is off, or it neither finds nor begins a transaction |
| Transactions.RunsBracketSafeIff | dbt/adapters/sqlserver/sqlserver_connections.py:617-662 | every possible run keeps the bracket throughout exactly when the profile allows one attempt only or the flag is off |
| Transactions.RetryLosesEarlierWork | dbt/adapters/sqlserver/sqlserver_connections.py:617-662 | such a retry makes its statement durable at once, the work before it is gone, and the trailing commit succeeds all the same |
| Transactions.CommittedWorkSurvives | dbt/adapters/sqlserver/sqlserver_adapter.py:710-740 | work done before `commit_if_open` survives whatever follows, failures, retries and rollbacks included |
| Transactions.TrailingCommitFindsOne | dbt/adapters/sqlserver/sqlserver_adapter.py:742-748 | after `begin_if_closed` the trailing commit finds a transaction open and makes exactly the work since durable |
| Transactions.AttentionBreaksBracket | dbt/adapters/sqlserver/sqlserver_connections.py:239-256 | an attention, which the adapter is not told of, keeps the bracket exactly when no transaction was open |
| Transactions.AttentionLosesWorkSilently | dbt/adapters/sqlserver/sqlserver_connections.py:239-256 | after an attention inside a transaction the trailing commit succeeds and the work is gone |
| Transactions.Connection.DoBegin | dbt/adapters/sqlserver/sqlserver_connections.py:564-566 | fails exactly when one is open; afterwards one is, no work has moved and the bracket is kept |
| Transactions.Connection.DoCommit | dbt/adapters/sqlserver/sqlserver_connections.py:568-570 | fails exactly when none is open; afterwards none is, the work so far is durable and the bracket is kept |
| Transactions.Connection.DoCommitIfOpen | dbt/adapters/sqlserver/sqlserver_adapter.py:710-740 | never fails; afterwards nothing is open and all work so far is durable |
| Transactions.Connection.DoBeginIfClosed | dbt/adapters/sqlserver/sqlserver_adapter.py:742-748 | never fails; afterwards one is open and no work has moved |
| Transactions.Connection.ExecuteWithRetry | dbt/adapters/sqlserver/sqlserver_connections.py:617-662 | the recursion makes exactly the attempts that `QueryRetry.Execute` reports and leaves the work of a final success only |
| Transactions.Connection.AddQuery | dbt/adapters/sqlserver/sqlserver_connections.py:664-706 | composes auto-begin, the retries and the release: success as the retry recursion reports, no durable work lost on failure, and the bracket broken exactly by a success on a retry inside a transaction |
| Transactions.Connection.CreateIndexesNoTxn | dbt/include/sqlserver/macros/adapters/indexes.sql:492-522 | earlier work is committed first, every build is durable on its own outside any transaction, however often it is retried, and one is open afterwards; when a build fails those before it stay and nothing is left open; an empty list does nothing |
| ColumnTypes.SafeExpansionLosesNothing | dbt/adapters/sqlserver/sqlserver_column.py:203-260 | an accepted expansion between exact numeric types loses no stored value exactly when it is not a decimal of 15 integer digits into money or of 6 into smallmoney |
| ColumnTypes.ExpansionClimbs | dbt/adapters/sqlserver/sqlserver_column.py:140-260 | every accepted expansion strictly increases a lexicographic rank: string family, then MAX, then size; integer rank, then digits plus scale |
| ColumnTypes.NoCycles | dbt/adapters/sqlserver/sqlserver_column.py:140-260 | no chain of accepted expansions of any length returns to where it began |
| ColumnTypes.TransitiveExceptThroughMoney | dbt/adapters/sqlserver/sqlserver_column.py:140-260 | two accepted expansions in a row make one, exactly except from an integer through a decimal to money |
| ColumnTypes.StringExpansionKeepsCapacity | dbt/adapters/sqlserver/sqlserver_column.py:140-160 | a string expansion never lowers how many characters fit |
| ColumnExpansion.StringsExpandIff | dbt/adapters/sqlserver/sqlserver_column.py:140-229 | strings of one kind expand exactly when the reference holds every text the column holds and some more, MAX above every length; of different kinds, behind the gate, exactly when the reference is a Unicode kind that holds every text and the column is not nvarchar; the pairs refused although they would lose nothing and gain something are char and varchar among themselves and nvarchar into nchar |
| ColumnExpansion.NumbersExpandIff | dbt/adapters/sqlserver/sqlserver_column.py:203-260 | exact numbers expand, behind the gate, exactly when the pair is compared at all and the reference stores every number of the column and some more, but for two exceptions of digit counts: all integer digits of a money type into it, and a money type into the decimal of its own digits |
| ColumnExpansion.ExpandsIff | dbt/adapters/sqlserver/sqlserver_column.py:140-260 | for any two columns: they expand exactly when that is due as in the two rows above, and nothing else expands |
| ColumnExpansion.WidenedMatchesReference | dbt/adapters/sqlserver/sqlserver_column.py:48-83 | the type written for a reference column reads back as that column in everything the order looks at |
| ColumnExpansion.WidenedOnce | dbt/adapters/sqlserver/sqlserver_adapter.py:632-669 | widening never narrows, and under the same gate a widened column is left alone |
| ColumnExpansion.Relation.ExpandColumnTypes | dbt/adapters/sqlserver/sqlserver_adapter.py:632-669 | of columns as the catalog reports them, one that both relations have is altered exactly when that is due by what the two columns hold, with the gate open behind the flag, for any number of rows under -1, never under 0 and else up to the limit; it then has its reference type, every other column is unchanged, and the column names stay |
| ColumnExpansion.Relation.ExpandTwice | dbt/adapters/sqlserver/sqlserver_adapter.py:632-669 | a second pass under the same gate issues no ALTER |
| Masks.ComputeNormalized | dbt/adapters/sqlserver/sqlserver_mask.py:107-135 | the loop with its quoting flag computes `NormalizeFunction` |
| Masks.NormalizeEqualMeaning | dbt/adapters/sqlserver/sqlserver_mask.py:107-135 | two functions normalise equal exactly when they have the same number of quoted segments, those match verbatim and the others match up to whitespace and case |
| Masks.NormalizeFunctionIdempotent | dbt/adapters/sqlserver/sqlserver_mask.py:107-135 | normalising is idempotent |
| Masks.ResolveMasks | dbt/adapters/sqlserver/sqlserver_mask.py:59-104 | the loop over columns computes the resolved map and the conflict warnings |
| Masks.ConflictsMeaning | dbt/adapters/sqlserver/sqlserver_mask.py:88-95 | a column is warned about exactly when it has a value of its own and the model has an entry for it, up to case |
| Masks.ResolvedMeaning | dbt/adapters/sqlserver/sqlserver_mask.py:79-104 | with case-distinct columns and keys, a column value wins, its null removes, otherwise the model value stays, and the keys stay case-distinct |
| Masks.OptOutRemovesIff | dbt/adapters/sqlserver/sqlserver_mask.py:41-47 | for any model map and case-distinct columns, an opt-out leaves no mask exactly when the model has at most one key for the column up to case |
| Masks.ColumnValueUsedIff | dbt/adapters/sqlserver/sqlserver_mask.py:79-104 | for any model map, the value of a column is the one the diff uses exactly when the other spellings in the model do not follow its own with another value |
| Masks.ThirdSpellingWins | dbt/adapters/sqlserver/sqlserver_mask.py:41-47 | an input where they do: three spellings of one column and the middle one used |
| Masks.MaskChanges | dbt/adapters/sqlserver/sqlserver_mask.py:138-218 | the loops compute the five lists of `ChangesFor` |
| Masks.EachDesiredColumnOnce | dbt/adapters/sqlserver/sqlserver_mask.py:170-218 | every desired column falls in exactly one of unchanged, adds, changes, skipped, errors |
| Masks.SortedMembers | dbt/adapters/sqlserver/sqlserver_mask.py:170-218 | each list holds exactly the desired columns with its verdict; the contract of the verdict writes out which columns are skipped, errors, added or changed |
| Masks.DropsAreUndesired | dbt/adapters/sqlserver/sqlserver_mask.py:206-218 | a drop is emitted exactly for the masked columns that are not desired |
| Masks.MasksConverge | dbt/adapters/sqlserver/sqlserver_mask.py:170-218 | without errors, whatever equal-normalising spellings the server stores, the next diff adds, changes and drops nothing and raises no error |
| Masks.MasksReachDesired | dbt/adapters/sqlserver/sqlserver_mask.py:170-218 | with every masked column known, the masks afterwards are exactly those desired for known columns |
| Masks.ApplyMasks | dbt/include/sqlserver/macros/adapters/apply_masks.sql:83-170 | the macro: its guards in order, then adds, alterations and drops, or the columns it raises about |
| Masks.MaskPlanRaises | dbt/include/sqlserver/macros/adapters/apply_masks.sql:83-141 | nothing is done without a config or on anything but a table; else the macro raises before 2016, then about columns to set that cannot carry a mask, then about index keys |
| Masks.StatementsFit | dbt/include/sqlserver/macros/adapters/apply_masks.sql:143-161 | a mask is added only to a known column that has none and is no index key, altered only where there is another one, dropped only where there is one that nobody wants |
| Masks.StatementsApply | dbt/include/sqlserver/macros/adapters/apply_masks.sql:143-161 | the statements together do what the diff says |
| Masks.ApplyMasksReachesIff | dbt/include/sqlserver/macros/adapters/apply_masks.sql:83-170 | on a table whose masked columns are known, a run that does not raise reaches the config exactly when the config is not empty or nothing was masked |
| Denies.DedupeCi | dbt/adapters/sqlserver/sqlserver_deny.py:35-42 | the loop computes `Deduped` |
| Denies.DedupedMeaning | dbt/adapters/sqlserver/sqlserver_deny.py:35-42 | the result has no blank name and no repetition up to case, and exactly the nonblank names of the input up to case |
| Denies.FirstSpellingStays | dbt/adapters/sqlserver/sqlserver_deny.py:35-42 | of several spellings of a name the first one stays |
| Denies.ResolveDenies | dbt/adapters/sqlserver/sqlserver_deny.py:55-104 | the loops compute the resolved map, the pairs warned about and the unsupported privileges |
| Denies.NormalizeGrantMap | dbt/adapters/sqlserver/sqlserver_deny.py:45-52 | the grant map holds exactly the pairs the grant config asks for |
| Denies.ContradictionsMeaning | dbt/adapters/sqlserver/sqlserver_deny.py:90-102 | a resolved pair is warned about exactly when it is also granted |
| Denies.ResolvedMeaning | dbt/adapters/sqlserver/sqlserver_deny.py:55-104 | resolution keeps exactly the nonblank pairs of the five supported privileges, up to case |
| Denies.UnsupportedMeaning | dbt/adapters/sqlserver/sqlserver_deny.py:79-83 | exactly the privileges that are none of the five, up to case, are reported, as they are spelled |
| Denies.ResolvedClean | dbt/adapters/sqlserver/sqlserver_deny.py:55-104 | the resolved privileges are supported, lower-case and distinct, with clean nonempty lists |
| Denies.ResolvedIdempotent | dbt/adapters/sqlserver/sqlserver_deny.py:55-104 | resolving is idempotent |
| Denies.DenyChanges | dbt/adapters/sqlserver/sqlserver_deny.py:107-141 | the loops and comprehensions compute `ChangesFor` |
| Denies.ApplyDenies | dbt/include/sqlserver/macros/adapters/apply_denies.sql:66-115 | the macro emits the revokes, then the denies of principals that exist; nothing for an empty config |
| Denies.EffectOfBatch | dbt/include/sqlserver/macros/adapters/apply_denies.sql:86-115 | a batch that revokes and denies no key twice has the same effect in any order |
| Denies.AcceptedIff | dbt/include/sqlserver/macros/adapters/apply_denies.sql:86-107 | the server runs the batch of a resolved config exactly when every configured principal that exists and is not denied yet is written without surrounding blanks |
| Denies.DeniesReachWanted | dbt/include/sqlserver/macros/adapters/apply_denies.sql:66-115 | for any resolved config whose batch the server runs, in any order, what is denied afterwards is exactly the configured pairs whose principal exists if and only if the config is not empty or nothing was denied |
| Denies.FreshBuildAdds | dbt/include/sqlserver/macros/adapters/apply_denies.sql:72-80 | without the live read nothing is revoked and the configured pairs whose principal exists are added |
| Denies.DeniesConverge | dbt/include/sqlserver/macros/adapters/apply_denies.sql:66-115 | a second run emits no statement |

## Left out

- Opening connections, driver and Azure identity calls, lazy imports, logging and message texts: I/O. Errors
  are told apart by kind and by the name they are about.
- md5 and `json.dumps`: the payload is a map from keys to values and the hash an injective function of it.
- jsonschema and mashumaro: parsing is the normalisation, the type check and the validation rules.
- Unicode case folding and other collations: `lower` and `upper` fold ASCII letters; whitespace is Python's
  full set.
- The context of a drop change beyond its name, which goes through `from_dict` on catalog rows, and index
  rows whose name is null.
- Indexes created outside under a forged managed name: runs assume that a managed name tells the truth
  about the index type, which the model shows every reconcile keeps.
- Outside changes between the statements of one reconcile: they happen between reconciles.
- dbt-core's `begin`, `commit` and `release` bodies are not part of this model; they follow the comments in
  `sqlserver_adapter.py`.
- ADBC URIs, Arrow type maps, authentication alias maps and the executed-type map: lookups. The
  authentication label arrives normalised, and the type maps are arbitrary functions.
- The generator that yields statements is a list; the order of evaluation between yields is not visible.
- The SQL text of mask and deny statements.
- The columns text the catalog reports for a created index: a new row carries its joined key columns. Only
  warnings print that text, and a created row is never warned about.
- Errors that do not abort a transaction, as with `xact_abort` off: a failed statement rolls it back.
- That the server rejects a principal with surrounding blanks, in front or behind, is taken as given.
- `add_select_query` of the base connection manager is not part of this model; it is taken to be `add_query`
  without auto-begin.
- Failing rollbacks: `_rollback_handle` swallows their errors, and the model takes every rollback to reach
  the server.
- `configure_for_test`, which replaces the token cache, and a cached or loaded token that is null.
- Grants, rename and truncate macros and `process_results` column renaming: table lookups and text.
