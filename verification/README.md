# Verified model of the data drivers and the remote-desktop output path

Dafny 4.11 model of the parts of this repository whose behaviour is a protocol, a translation or a conservation law.
`dafny verify dfyconfig.toml` checks everything. Nothing here is executed.

## What is modelled

- **Remote-desktop output** (`HelperProtocol`, `OutputMailbox`, `MailboxRuns`, `RdpOutputMapper`, `SessionPicture`).
  The coalescing mailbox between RDP session and host as a class, and as a machine whose steps - send, clone, drop,
  one pass of the receive loop - interleave in any way. Coalescing never changes the picture, the cursor or the
  control stream the receiver ends with; no wake-up is lost. The mapper that feeds the mailbox meets what coalescing
  needs and shows, pixel by pixel, the picture and cursor the session asks for.
- **ALTER TABLE compilers** (`AlterTable`, `AlterSql`, `AlterPlan`, `AlterNames`, `AlterUndo`, `CommentDiff`,
  `AlterDefinitions`, `OpenGaussDdl`, `OpenGaussTarget`, `DuckDbDdl`, `DuckDbTarget`). Statements are data with an
  interpreter over tables; the builders' loops are proved to produce a plan, and the plan is proved to be accepted, to
  reach its target and to be undone - each with the exact condition, for any renames, chained ones included.
- **IoTDB SQL rewriting** (`SqlScan`, `SqlWords`, `SqlLists`, `SqlParts`, `IotdbInsert`, `IotdbColumns`,
  `IotdbInsertLaws`, `IotdbInsertTwice`, `IotdbUpdate`, `IotdbUpdateLaws`, `IotdbUpdateExamples`, `IotdbMeaning`). The
  look-ahead scanners refine quote parity; printing and parsing INSERT are inverse; rewriting any text that reads back
  is idempotent exactly on settled columns; UPDATE becomes the right INSERT.
- **DuckDB sessions and export** (`DuckDbSession`, `DuckDbHandlers`, `DuckDbEffects`, `Csv`, `ExportStream`).
  Bookkeeping against the session's real transaction flag over all runs, what commits keep and rollbacks undo, CSV
  that a reader by section 2 of RFC 4180 decodes cell by cell, and a byte stream that loses and repeats nothing.
- **Generic database/sql server** (`GoServer`, `GoServerLaws`, `GoServerHandlers`, `GoServerAnswers`, and `Csv` for
  its writer). Where SQL runs and what is committed; ownership of connections, cursors, transactions and imports and
  conservation of library handles over all request sequences, with every close allowed to fail.
- **Cursors** (`Cursors`): four paging implementations refine one specification.
- **Smaller pieces**: MongoDB blobs (`MongoBlob`), time text (`TimeText`), Redis Pub/Sub accounting (`RedisPubSub`).
- `Wrappers`, `Text` and `Arithmetic` hold what the others share.

Objects that the source updates in place are classes; each method is proved against a function of the old state, and
the results about runs are lemmas about those functions. Answers of a database, a client library or a clock come with
each request as parameters.

## Where the code does not do what one would expect

Each of these is a proved lemma with the exact condition or a concrete input.

- openGauss: with drops allowed, every ordinary rename makes the script fail, because the old name is renamed and then
  dropped (`OpenGaussDdl.DestructiveRenameRefused`). A rename whose old name the target still lists with another
  comment fails too (`OpenGaussDdl.ForwardAcceptedIff`). Dropped columns are not restored by the rollback list, nor
  are comments when renames chain: after a to c and b to a, the undo of a comment on a writes the old comment of a
  onto the column that was b (`OpenGaussDdl.RollbackRestoresIff`, `OpenGaussDdl.ChainNotRestored`).
- DuckDB: a renamed column never gets its new comment, and a new column with a blank comment that is not empty gets
  none (`DuckDbDdl.CommentsReachTargetIff`). The rollback list undoes comments only (`DuckDbDdl.RollbackRestoresIff`).
  One input fails both (`DuckDbDdl.RenamedCommentExample`). Chained renames reach their target but not its comments
  (`DuckDbDdl.ChainReachesTarget`). That a column counts up by itself does not get into its definition
  (`DuckDbTarget.DefinitionReadsBack`).
- DuckDB: a COMMIT that fails leaves bookkeeping and session apart in three cases (`DuckDbSession.StepAgreesIff`),
  reached by `BreakingCommitExample`, `BreakingImportExample` and `BreakingBatchExample`; a transaction is then stuck
  (`StuckTransaction`), or an import stranded (`StrandedImport`).
- DuckDB: a time of day given as a negative count of nanoseconds is printed a second late when its last second has
  more than 999999000 of them (`TimeText.TimeReadsBackIff`, `TimeText.BeforeMidnightIsLate`).
- DuckDB: a cursor asked for no rows makes no progress, unlike the other three (`Cursors.StallsIff`).
- CSV: a null marker that needs quotes is exported as text (`Csv.NullIsQuoted`).
- IoTDB: ` and and ` outside literals makes the UPDATE rewrite panic (`IotdbUpdateLaws.PanicsIff`,
  `IotdbUpdateExamples.DoubledAndPanics`); a key word inside a quoted name is taken for the key word of the statement
  (`IotdbUpdateLaws.PartsAreReadIff`, `IotdbUpdateExamples.QuotedWhereIsTaken`); only the first row of a multi-row
  INSERT survives (`IotdbInsertLaws.FurtherRowsAreDropped`); string literals are trimmed and lose their quotes when
  they read as booleans or numbers (`IotdbInsertLaws.LiteralKeptIff`).
- IoTDB: a column is not normalised in one rewrite when its name keeps white space or a quoting mark at an end
  (`IotdbColumns.NormalizeColumnTwiceIff`). The ordinary case is a root path with a quoted last node: `` root.s.`b` ``
  becomes `` `b ``, with one mark (`IotdbColumns.QuotedNodeUnsettled`, `IotdbInsertTwice.QuotedNodeIsRewrittenTwice`).
- IoTDB: a path with a dot inside parentheses is cut there, and the outcome does not read back
  (`IotdbInsertTwice.ReadsBackIff`, `IotdbInsertTwice.CutParenDoesNotReadBack`).
- IoTDB: an UPDATE with further conditions becomes an INSERT that ignores them
  (`IotdbUpdateLaws.OtherConditionsAreDropped`).
- Redis: a drop is counted after the send failed; a read in between reports a drained stream with one message missing,
  which the next read reports (`RedisPubSub.RaceMissesDrop`, `RedisPubSub.MissedDropIsReported`).
- Mailbox: merging deltas of different canvas sizes loses the first one exactly when that would have changed the
  screen (`OutputMailbox.MergeComposesIff`, `OutputMailbox.MergeNeedsOneCanvas`); the mapper never sends such a pair
  (`RdpOutputMapper.MapperFeedsWell`).

## Model

| member | source | states |
|---|---|---|
| OutputMailbox.Mailbox.Send | extensions/remote-desktop/rdp-helper/src/output_mailbox.rs:51-82 | A send fails exactly when the receiver is gone and then changes nothing; otherwise a frame replaces frame and delta, a delta merges, a barrier drops pending cursor events, a terminal event drops pending video as well |
| OutputMailbox.Mailbox.CloneSender | extensions/remote-desktop/rdp-helper/src/output_mailbox.rs:85-92 | One more sender |
| OutputMailbox.Mailbox.DropSender | extensions/remote-desktop/rdp-helper/src/output_mailbox.rs:94-104 | One sender less, and the receiver is woken by the last one |
| OutputMailbox.Mailbox.ReceivePass | extensions/remote-desktop/rdp-helper/src/output_mailbox.rs:106-129 | One pass of the receive loop: control first, then the frame, then the delta; end of stream only without senders; wait otherwise |
| OutputMailbox.Mailbox.DropReceiver | extensions/remote-desktop/rdp-helper/src/output_mailbox.rs:131-141 | Everything pending is dropped and no send succeeds any more |
| OutputMailbox.Mailbox.DiscardPendingCursorEvents | extensions/remote-desktop/rdp-helper/src/output_mailbox.rs:192-202 | The queue without its cursor events, everything else in order |
| OutputMailbox.MergeComposes | extensions/remote-desktop/rdp-helper/src/output_mailbox.rs:143-170 | Drawing a merged delta is drawing the two deltas one after the other, when both fit the canvas |
| OutputMailbox.MergeNeedsOneCanvas | extensions/remote-desktop/rdp-helper/src/output_mailbox.rs:143-170 | A concrete pair, different in height alone, of which merging loses the first |
| OutputMailbox.MergeComposesIff | extensions/remote-desktop/rdp-helper/src/output_mailbox.rs:143-170 | On every screen and for deltas of any sizes: the merged delta draws what the two draw if and only if width and height agree or the first would have drawn nothing new |
| MailboxRuns.AccountedRun | extensions/remote-desktop/rdp-helper/src/output_mailbox.rs:51-141 | After every interleaving the sender count equals the live sender handles, and a dropped receiver leaves nothing pending |
| MailboxRuns.NoLostWakeUp | extensions/remote-desktop/rdp-helper/src/output_mailbox.rs:94-129 | In every reachable state a receiver that is blocked although something is pending, or although no sender lives, has a notification on its way that wakes it |
| MailboxRuns.EndOnlyWhenDrained | extensions/remote-desktop/rdp-helper/src/output_mailbox.rs:106-129 | The receiver is told the end if and only if all senders are gone and nothing is pending |
| MailboxRuns.RefusedOnceGone | extensions/remote-desktop/rdp-helper/src/output_mailbox.rs:51-56 | Under every interleaving, sends after the receiver is gone are refused and leave the mailbox empty |
| MailboxRuns.ControlExactlyOnce | extensions/remote-desktop/rdp-helper/src/output_mailbox.rs:67-77 | Control events other than cursor events arrive exactly once and in the order sent |
| MailboxRuns.CursorKept | extensions/remote-desktop/rdp-helper/src/output_mailbox.rs:172-202 | No two neighbours in the queue are both positions or both bitmaps, and delivered plus pending cursor events give the cursor of all those sent since the last barrier |
| MailboxRuns.ControlFirst | extensions/remote-desktop/rdp-helper/src/output_mailbox.rs:106-129 | Video is delivered only when every control event sent before it has been, and the cursor is the one asked for |
| MailboxRuns.WaitsOnlyWhenEmpty | extensions/remote-desktop/rdp-helper/src/output_mailbox.rs:106-129 | A pass waits exactly when nothing is pending although somebody may still send; it delivers exactly when something is |
| MailboxRuns.CoalescingPreservesPicture | extensions/remote-desktop/rdp-helper/src/output_mailbox.rs:51-129 | In every reachable state the screen drawn so far with pending frame and delta drawn on it equals the picture of all video sent; a drained receiver shows that picture |
| MailboxRuns.ExpectedIsAllVideo | extensions/remote-desktop/rdp-helper/src/output_mailbox.rs:57-66 | The reference picture is every video event ever sent, drawn one by one, when no terminal event was sent |
| RdpOutputMapper.Mapper.Map | extensions/remote-desktop/rdp-helper/src/rdp/output.rs:48-183 | The events published for each session output: video only after the first frame, regions only inside the current frame, held cursor flushed after Connected |
| RdpOutputMapper.MapperFeedsWell | extensions/remote-desktop/rdp-helper/src/rdp/output.rs:84-142 | Whatever the session delivers, the mapper emits only deltas that fit the canvas of the frame before them |
| RdpOutputMapper.GoodFeedFits | extensions/remote-desktop/rdp-helper/src/output_mailbox.rs:143-170 | A feed of that kind meets, in every run of the mailbox, what coalescing needs |
| RdpOutputMapper.SessionPictureKept | extensions/remote-desktop/rdp-helper/src/rdp.rs:271-289 | Mapper and mailbox together: a session sent through both leaves a drained receiver with the picture of all its video, in every interleaving |
| SessionPicture.MapperShowsPicture | extensions/remote-desktop/rdp-helper/src/rdp/output.rs:71-142 | For every sequence of session events: drawing the video the mapper emits gives the picture the session asks for - the last image, with every valid region of the current frame placed on it - defined on the session's events alone |
| SessionPicture.PlacedPixel | extensions/remote-desktop/rdp-helper/src/rdp/output.rs:106-140 | Pixel by pixel: column i and row j of a region's data is column x + i and row y + j of the screen, and every other pixel is as before |
| SessionPicture.SessionShown | extensions/remote-desktop/rdp-helper/src/rdp.rs:271-289 | From session to screen: when all the mapper emitted was sent and drained, under every interleaving, the receiver shows the picture the session asks for |
| SessionPicture.MapperShowsCursor | extensions/remote-desktop/rdp-helper/src/rdp/output.rs:160-215 | The cursor the receiver is told is the one the session asked for: at once while it has a frame, with its first image otherwise, and forgotten when it starts over without one |
| SessionPicture.MapperAnnounces | extensions/remote-desktop/rdp-helper/src/rdp/output.rs:48-183 | All other events are exactly what there is to announce, in order: a connection with its first image and every start over; video and cursor events stand only between these |
| AlterTable.UndoesBoth | extensions/ipc/opengauss/src/ddl.rs:228-384 | Undo lists compose: if each of two change lists is undone by its rollback, so is the one after the other |
| AlterPlan.RenamesEffect | extensions/ipc/opengauss/src/ddl.rs:246-262 | What a list of renames does to every column name, on every table that accepts it |
| AlterNames.RenamesRunIff | extensions/ipc/opengauss/src/ddl.rs:246-262 | Exactly when a list of renames runs on every table of a specification, chained renames included: each finds its old name, left there by the specification or by an earlier rename, and its new name free at that moment |
| AlterNames.OrdinaryRun | extensions/ipc/opengauss/src/ddl.rs:246-262 | Renames without repeated names, from columns of the table to names it lacks, always run |
| AlterNames.OpeningRunsIff | extensions/ipc/opengauss/src/ddl.rs:246-296 | Adding the new columns behind the renames never fails, so both run exactly when the renames do |
| AlterUndo.RenamesUndoDetermines | extensions/ipc/opengauss/src/ddl.rs:246-262 | Whenever undoing the renames succeeds, renaming again leads back: the table after the undo is determined |
| AlterPlan.DropsRunIff | extensions/ipc/opengauss/src/ddl.rs:297-312 | A list of different drops runs if and only if every column is there and, on DuckDB, one is left |
| CommentDiff.DiffComments | extensions/ipc/opengauss/src/ddl.rs:330-384 | The loop appends exactly the comment statements of the difference and puts their undo in front of the rollback list |
| CommentDiff.BuildMap | extensions/ipc/opengauss/src/ddl.rs:352-356 | Collecting columns by name keeps the last of equal names |
| CommentDiff.DiffFacts | extensions/ipc/opengauss/src/ddl.rs:352-384 | Both directions: a column is in the difference exactly when it is in both specifications with different comments |
| CommentDiff.DiffLegal | extensions/ipc/opengauss/src/ddl.rs:330-384 | The comment part is accepted exactly when every column it mentions is in the table |
| CommentDiff.DiffEffect | extensions/ipc/opengauss/src/ddl.rs:330-384 | Afterwards the table comment is the target's and each column has its new comment, all others their old one |
| CommentDiff.DiffUndone | extensions/ipc/opengauss/src/ddl.rs:330-384 | The comment part is undone by its rollback on every table whose comments match |
| AlterSql.SqlReadsBack | extensions/ipc/opengauss/src/ddl.rs:479-512 | Whatever names, definitions and comments contain, the text of a statement reads back as that statement |
| OpenGaussDdl.BuildAlterTable | extensions/ipc/opengauss/src/ddl.rs:228-326 | The loops produce exactly renames, adds, drops and comments, the undo of each but drops in reverse, and a warning a drop; or the error of the first new column without a definition |
| OpenGaussDdl.ForwardAcceptedIff | extensions/ipc/opengauss/src/ddl.rs:228-326 | For specifications with distinct column names, on every table matching the old one: the forward list is accepted if and only if the renames run and every column dropped or commented on is there under that name afterwards |
| OpenGaussDdl.DestructiveRenameRefused | extensions/ipc/opengauss/src/ddl.rs:246-312 | With drops allowed, a rename whose old name the target lacks and no other rename restores is always refused: the old name is renamed and then dropped |
| OpenGaussDdl.DestructiveRenameExample | extensions/ipc/opengauss/src/ddl.rs:246-312 | The smallest such request: one column a renamed to b |
| OpenGaussDdl.RollbackRestoresIff | extensions/ipc/opengauss/src/ddl.rs:228-384 | Whatever is renamed and allowed: after an accepted forward list the rollback list restores the table if and only if nothing is dropped and every column that gets a comment had, before the renames, the comment its undo writes |
| OpenGaussDdl.RollbackRestores | extensions/ipc/opengauss/src/ddl.rs:228-384 | The positive half: statement by statement the rollback list is accepted and restores exactly the table it began with |
| OpenGaussDdl.AlterAndRollBackIff | extensions/ipc/opengauss/src/ddl.rs:228-384 | Both lists in a row restore the table if and only if the forward list is accepted, nothing is dropped and those comments were there: a condition on the two specifications and the renames alone |
| OpenGaussDdl.AlterAndRollBack | extensions/ipc/opengauss/src/ddl.rs:228-384 | So they do for ordinary renames without drops, as long as the target lists no renamed column under its old name |
| OpenGaussDdl.ChainNotRestored | extensions/ipc/opengauss/src/ddl.rs:228-384 | What fails: a to c and b to a, with a new comment on a. Nothing is dropped, both lists run, and b comes back with the comment of a |
| OpenGaussTarget.ReachesTargetIff | extensions/ipc/opengauss/src/ddl.rs:228-326 | The forward list takes every matching table to exactly the target's column names if and only if it is accepted, each target column is new or stands after the renames, and every name that stands without being in the target goes |
| OpenGaussTarget.ReachesTargetWithoutRenames | extensions/ipc/opengauss/src/ddl.rs:228-326 | Without renames it is always accepted, and reaches the target if and only if drops are allowed or nothing has to be dropped |
| OpenGaussTarget.FinalColumn | extensions/ipc/opengauss/src/ddl.rs:263-293 | A column neither listed before nor a rename target is there with its own definition and its comment; any other keeps the definition it had |
| OpenGaussTarget.CommentsReachTargetIff | extensions/ipc/opengauss/src/ddl.rs:281-384 | After an accepted list the table comment is the target's; a column's comment is exactly when it is new and not a blank one, changes, or came with its column |
| OpenGaussTarget.DefinitionReadsBack | extensions/ipc/opengauss/src/ddl.rs:418-447 | A column has a definition exactly when it has a name and a type, and identity, NOT NULL, default and uniqueness read back from it exactly when the default does not pass for a key word at the end |
| OpenGaussTarget.RefusedIff | extensions/ipc/opengauss/src/ddl.rs:263-279 | A request is refused exactly when a new column has no name or no type, with the error of the first of them |
| OpenGaussTarget.EveryDropIsWarned | extensions/ipc/opengauss/src/ddl.rs:297-312 | Dropped is exactly what may be dropped and the target lacks, each with its warning in the same order; a rollback list is written only on request |
| OpenGaussTarget.BlankRenameIsSkipped | extensions/ipc/opengauss/src/ddl.rs:246-250 | A rename with a blank name makes no difference |
| OpenGaussTarget.AllEffective | extensions/ipc/opengauss/src/ddl.rs:246-262 | All other renames count, in order |
| DuckDbDdl.BuildAlterTable | extensions/ipc/duckdb/src/ddl.rs:89-168 | The loops produce exactly the rename-aware plan and a rollback list of comment statements only |
| DuckDbDdl.ForwardAcceptedIff | extensions/ipc/duckdb/src/ddl.rs:89-168 | For specifications with distinct names and named target columns: the forward list is accepted if and only if the renames run, a column is left by the drops, and every column commented on is there |
| DuckDbDdl.FittingRenamesAccepted | extensions/ipc/duckdb/src/ddl.rs:89-168 | With fitting renames every statement is legal when it is reached |
| DuckDbDdl.ReachesTargetIff | extensions/ipc/duckdb/src/ddl.rs:89-168 | With drops allowed: accepted, and the final column names are the target's, if and only if the renames run, leave every target name that is not added in place, and leave no name the target lacks that is not dropped |
| DuckDbDdl.OrdinaryRenamesFit | extensions/ipc/duckdb/src/ddl.rs:89-168 | For ordinary renames that is: each goes from a name the target lacks to one it has |
| DuckDbDdl.ChainReachesTarget | extensions/ipc/duckdb/src/ddl.rs:89-168 | Chained renames a to c and b to a reach their target, though not its comments |
| DuckDbDdl.RenamedNotAddedOrDropped | extensions/ipc/duckdb/src/ddl.rs:100-150 | A renamed column is neither added nor dropped under either name |
| DuckDbDdl.CommentsReachTargetIff | extensions/ipc/duckdb/src/ddl.rs:352-406 | The table comment arrives, and that of every column that is not renamed; all comments are the target's if and only if no renamed column should get another one and no new column has a blank one that is not empty |
| DuckDbDdl.RollbackRestoresIff | extensions/ipc/duckdb/src/ddl.rs:89-168 | Running the rollback list afterwards restores the table if and only if nothing but comments changed: every column behind its old name, none added, none dropped |
| DuckDbDdl.RenamedCommentExample | extensions/ipc/duckdb/src/ddl.rs:89-168 | One column renamed with a new comment: the comment does not arrive and the rollback list does not restore the table |
| DuckDbTarget.DefinitionReadsBack | extensions/ipc/duckdb/src/ddl.rs:309-328 | Type, NOT NULL, default and key read back from a definition exactly when the default does not pass for a key word at the end |
| DuckDbTarget.FinalDefinition | extensions/ipc/duckdb/src/ddl.rs:114-135 | A new column ends with its own definition, any other with the one it had |
| DuckDbTarget.OtherRenamesAreSkipped | extensions/ipc/duckdb/src/ddl.rs:104-112 | A rename with a blank name or of a name to itself makes no difference |
| DuckDbTarget.AllEffective | extensions/ipc/duckdb/src/ddl.rs:104-112 | All other renames count, in order |
| DuckDbTarget.RestOfAnswer | extensions/ipc/duckdb/src/ddl.rs:155-168 | The rollback list is empty unless asked for and touches comments only |
| Csv.WriteCSVField | internal/dbipc/data.go:178-195 | The rune loop writes exactly the field's text: quoted when forced or when delimiter, quote, CR or LF occurs, quotes doubled |
| Csv.WriteCSVRecord | internal/dbipc/data.go:167-176 | Fields with delimiters between them and one LF |
| Csv.ExportRowsCSV | internal/dbipc/data.go:104-139 | The header, if asked for, and one record a row |
| Csv.RecordOf | internal/dbipc/data.go:120-135 | NULL becomes the unquoted marker; empty text and text equal to the marker are quoted |
| Csv.FieldReadsBack | internal/dbipc/data.go:178-195 | A reader by section 2 of RFC 4180 gets back the very text and whether it was quoted |
| Csv.RoundTripIff | internal/dbipc/data.go:104-195 | Every table of every size comes back cell by cell, NULL, empty text and marker text told apart, if and only if the marks differ from each other and from LF and the marker needs no quotes |
| Csv.RowsReadBack | internal/dbipc/data.go:104-195 | The positive half for one table |
| Csv.Unreadable | internal/dbipc/data.go:141-165 | For each unreadable choice of options a table that does not come back |
| Csv.NullIsQuoted | internal/dbipc/data.go:178-195 | A marker that needs quotes turns NULL into text |
| Csv.QuoteIsDelimiter | internal/dbipc/data.go:178-195 | Equal quote and delimiter: a table that is misread |
| Csv.LineEndIsMark | internal/dbipc/data.go:178-195 | A line feed as delimiter or quote: a table that is misread |
| Csv.FileReadsBack | internal/dbipc/data.go:104-139 | A whole file with its header comes back |
| Csv.WrittenAsItIsIff | internal/dbipc/data.go:120-195 | Quotes stand exactly where they must: a value is written as it is if and only if it is neither empty nor the null marker and holds no mark and no CR or LF; likewise NULL and the names |
| ExportStream.RenderRows | extensions/ipc/duckdb/src/handlers.rs:874-926 | The rendering loop writes the rows by the same rules as the Go writer |
| ExportStream.Stream.Fill | extensions/ipc/duckdb/src/handlers.rs:615-666 | One fetch: the header once, then the next page, done when the page is short or the limit is reached |
| ExportStream.Stream.ReadChunk | extensions/ipc/duckdb/src/handlers.rs:554-573 | A read fills while the buffer is empty and the stream is not done, then hands out at most the limit |
| ExportStream.FillConserves | extensions/ipc/duckdb/src/handlers.rs:628-666 | Filling moves text from what is to be rendered into the buffer, none lost, none twice |
| ExportStream.ReadConserves | extensions/ipc/duckdb/src/state.rs:206-277 | What is left before a read is its chunk and what is left after it |
| ExportStream.ChunksConserve | extensions/ipc/duckdb/src/handlers.rs:554-666 | For every sequence of read sizes: the chunks and what is left are one whole rendering; at done the chunks are it |
| ExportStream.ReadsProgress | extensions/ipc/duckdb/src/handlers.rs:554-573 | A read that is not done returns at least one byte |
| ExportStream.ReadsEnd | extensions/ipc/duckdb/src/handlers.rs:554-573 | After as many reads as there are bytes, and one, the stream is done |
| ExportStream.ExportReadsBack | extensions/ipc/duckdb/src/handlers.rs:554-573 | End to end: the chunks of a finished export decode to the column names and the first rows, cell by cell |
| ExportStream.ReadIsAsAsked | extensions/ipc/duckdb/src/handlers.rs:554-673 | A read hands out what was asked for, between one byte and a mebibyte and 64 KiB by default, or all that is buffered; it fetches at most a thousand rows, and only when the buffer is empty |
| DuckDbHandlers.ConnectionState.CloseConn | extensions/ipc/duckdb/src/state.rs:341-352 | Closing drops the connection, its imports and its transaction from every table |
| DuckDbHandlers.ConnectionState.BeginTx | extensions/ipc/duckdb/src/state.rs:416-425 | None when one is active; otherwise both tables record the new id |
| DuckDbHandlers.ConnectionState.CloseTx | extensions/ipc/duckdb/src/state.rs:439-445 | Both tables forget the transaction |
| DuckDbHandlers.ConnectionState.HandleExecRun | extensions/ipc/duckdb/src/handlers.rs:318-336 | One statement, inside the named transaction only if it is the connection's own |
| DuckDbHandlers.ConnectionState.HandleExecBatch | extensions/ipc/duckdb/src/handlers.rs:338-390 | A batch in its own transaction commits when no statement failed and rolls back otherwise |
| DuckDbHandlers.ConnectionState.RunExecBatch | extensions/ipc/duckdb/src/handlers.rs:366-390 | The statement loop with stop-on-error |
| DuckDbHandlers.ConnectionState.HandleTxBegin | extensions/ipc/duckdb/src/handlers.rs:412-441 | Options refused, nesting refused, BEGIN and then the bookkeeping |
| DuckDbHandlers.ConnectionState.HandleTxCommit | extensions/ipc/duckdb/src/handlers.rs:443-463 | The transaction leaves the tables only when COMMIT succeeded |
| DuckDbHandlers.ConnectionState.HandleTxRollback | extensions/ipc/duckdb/src/handlers.rs:465-491 | Savepoints refused; the transaction leaves the tables when ROLLBACK succeeded |
| DuckDbHandlers.ConnectionState.HandleImportBegin | extensions/ipc/duckdb/src/data_import.rs:19-29 | Validation, no import beside a transaction or another import, BEGIN and a new import |
| DuckDbHandlers.ConnectionState.HandleImportChunk | extensions/ipc/duckdb/src/data_import.rs:31-43 | The import is taken out, updated and put back whatever the chunk returned |
| DuckDbHandlers.ConnectionState.RunImportChunk | extensions/ipc/duckdb/src/data_import_support.rs:57-85 | The row loop up to the row that exceeds the failure threshold, counts and position |
| DuckDbHandlers.ConnectionState.HandleImportCommit | extensions/ipc/duckdb/src/data_import.rs:45-63 | The import is forgotten, then committed |
| DuckDbHandlers.ConnectionState.HandleImportAbort | extensions/ipc/duckdb/src/data_import.rs:65-76 | The import is forgotten, then rolled back |
| DuckDbSession.StepAgreesIff | extensions/ipc/duckdb/src/handlers.rs:338-491 | Every request keeps bookkeeping and session in agreement, except exactly the commits whose failure is answered with the wrong bookkeeping |
| DuckDbSession.TransactionAgreement | extensions/ipc/duckdb/src/state.rs:341-445 | After every run without such a commit: a session is in a transaction exactly when it has an active transaction or an open import, never both, and the two transaction tables are mutually inverse |
| DuckDbSession.RollbackReturnsToBegin | extensions/ipc/duckdb/src/handlers.rs:465-491 | Over any run between begin and rollback, the rollback leads back to the contents at begin |
| DuckDbSession.AbortReturnsToBegin | extensions/ipc/duckdb/src/data_import.rs:65-76 | The same for an import and its abort |
| DuckDbSession.BatchIsAtomic | extensions/ipc/duckdb/src/handlers.rs:338-390 | A batch in a transaction has all its effects or none; exactly when COMMIT fails with the transaction open nothing is decided, and a rollback leads back to the contents before it |
| DuckDbSession.StuckTransaction | extensions/ipc/duckdb/src/handlers.rs:443-491 | After a COMMIT that failed and rolled back, the transaction can be neither committed nor rolled back, and the connection refuses a new one and an import |
| DuckDbSession.StrandedImport | extensions/ipc/duckdb/src/data_import.rs:45-63 | After an import COMMIT that failed and stayed open, the session is inside a transaction the driver knows nothing of, and neither a transaction nor an import can begin |
| DuckDbSession.BreakingCommitExample | extensions/ipc/duckdb/src/handlers.rs:443-463 | Opening a connection and a transaction reaches the state in which such a commit breaks the agreement |
| DuckDbSession.BreakingImportExample | extensions/ipc/duckdb/src/data_import.rs:45-63 | Opening a connection and an import reaches the state in which a failed import commit breaks it |
| DuckDbSession.BreakingBatchExample | extensions/ipc/duckdb/src/handlers.rs:338-390 | Opening a connection reaches the state in which a failed batch commit breaks it |
| DuckDbSession.ChunkOnlyCounts | extensions/ipc/duckdb/src/data_import_support.rs:57-85 | A chunk moves neither the transaction flag nor the point to roll back to |
| DuckDbEffects.CommitKeepsEffects | extensions/ipc/duckdb/src/handlers.rs:443-463 | After begin and any requests that leave the transaction open: a commit is acknowledged exactly when COMMIT succeeds, and then the connection is outside a transaction with exactly the contents it had before |
| DuckDbEffects.ImportCommitKeepsEffects | extensions/ipc/duckdb/src/data_import.rs:45-63 | The same for an import, whose commit reports all the rows it counted |
| DuckDbEffects.EffectsAre | extensions/ipc/duckdb/src/handlers.rs:318-491 | What every request that is not refused leaves in its database: the contents of the last statement that succeeded, a commit what was done, a rollback what was there at begin |
| DuckDbEffects.OthersUntouched | extensions/ipc/duckdb/src/handlers.rs:318-491 | No request changes the session of a connection it is not about |
| DuckDbEffects.RefusedChangesNothing | extensions/ipc/duckdb/src/handlers.rs:318-491 | A refused request is answered with the first reason that applies and changes nothing at all |
| DuckDbEffects.AnswersAre | extensions/ipc/duckdb/src/handlers.rs:318-491 | What every other request is answered, told from the request and the tables |
| DuckDbEffects.BatchRuns | extensions/ipc/duckdb/src/handlers.rs:366-390 | A batch runs its statements up to the first failure that ends it; each is reported, and exactly the failures as errors |
| DuckDbEffects.ChunkRuns | extensions/ipc/duckdb/src/data_import_support.rs:57-85 | A chunk runs and counts exactly its rows up to the one that exceeds the threshold |
| DuckDbEffects.ChunkEndsThere | extensions/ipc/duckdb/src/data_import_support.rs:57-85 | That row is the first at which the failures exceed it |
| DuckDbEffects.OpenedIsThere | extensions/ipc/duckdb/src/state.rs:416-425 | What is opened is in the tables under the id that was answered, as it was asked for |
| DuckDbEffects.IdsGoUp | extensions/ipc/duckdb/src/state.rs:416-425 | Ids go up with every opening and with nothing else |
| DuckDbEffects.TxsStay | extensions/ipc/duckdb/src/state.rs:439-445 | A transaction leaves the tables exactly with its successful end or its connection |
| DuckDbEffects.ImportsStay | extensions/ipc/duckdb/src/data_import.rs:31-76 | An import leaves its table exactly with its commit, its abort or its connection, and until then only counts its rows |
| SqlScan.MatchingParen | internal/drivers/iotdb/sql.go:217-245 | The look-ahead scanner returns the least position at which a closing parenthesis outside literals - by quote parity - brings the depth to zero |
| SqlScan.ClosingFindsEnd | internal/drivers/iotdb/sql.go:217-245 | For every nested body, whatever follows: the parenthesis that closes it is found |
| SqlScan.ClosingEncloses | internal/drivers/iotdb/sql.go:217-245 | Conversely, what is found encloses a nested body |
| SqlScan.SplitCsv | internal/drivers/iotdb/sql.go:247-273 | The look-ahead scanner cuts at the commas at even quote parity and trims the parts |
| SqlLists.SplitCsvCutsExactly | internal/drivers/iotdb/sql.go:247-273 | Exactly there: the k-th part is the trimmed text between the (k-1)-th and the k-th such comma, one part more than commas |
| SqlLists.SplitTrimsJoin | internal/drivers/iotdb/sql.go:247-273 | Splitting a printed list gives back its parts without the white space around them, for all closed parts without commas outside literals |
| SqlLists.SplitUndoesJoin | internal/drivers/iotdb/sql.go:247-273 | Splitting a printed list gives back the parts, for all closed, trimmed parts without commas outside literals |
| SqlScan.SplitAnd | internal/drivers/iotdb/sql.go:275-303 | Panics if and only if two separators outside literals overlap; otherwise cuts at the separators at even parity |
| SqlLists.SplitAndUndoesJoin | internal/drivers/iotdb/sql.go:275-303 | Splitting a printed condition list gives back the conditions and never panics |
| IotdbUpdateLaws.PanicsIff | internal/drivers/iotdb/sql.go:92-130 | A printed UPDATE with any conditions makes the rewrite panic if and only if two separators of its WHERE clause share a blank |
| IotdbUpdateExamples.DoubledAndPanics | internal/drivers/iotdb/sql.go:92-130 | A whole UPDATE, with the word twice in a row, on which the rewrite panics on every connection |
| IotdbUpdateLaws.PartsAreReadIff | internal/drivers/iotdb/sql.go:97-107 | For any table and SET list with closed quotes: the three clauses are read as written if and only if neither key word stands in front of its own place outside literals, not even inside a quoted name |
| IotdbUpdateExamples.QuotedWhereIsTaken | internal/drivers/iotdb/sql.go:97-130 | What fails: a SET column named `` `where` `` is taken for the key word, and the UPDATE is not turned into an INSERT |
| IotdbUpdateExamples.ExampleIsSimple | internal/drivers/iotdb/sql.go:92-130 | The conditions on a well-formed UPDATE are met by a concrete statement |
| SqlScan.FindKeyword | internal/drivers/iotdb/sql.go:305-334 | The least position of the word at even parity with no identifier character on either side |
| SqlScan.KeywordFacts | internal/drivers/iotdb/sql.go:305-334 | What is returned is such a position and no earlier one is |
| SqlWords.LongNameIsFree | internal/drivers/iotdb/sql.go:305-334 | A longer name of letters, digits and underscores does not hold the word |
| SqlWords.WordAlone | internal/drivers/iotdb/sql.go:305-334 | Between any other characters the word is found |
| IotdbInsertLaws.LiteralReadsBack | internal/drivers/iotdb/sql.go:336-341 | Unquoting a quoted literal gives its content, for every content |
| IotdbInsertLaws.LiteralIsAtomic | internal/drivers/iotdb/sql.go:217-273 | A quoted literal is one closed part for every content: commas, parentheses, quotes |
| IotdbInsertLaws.NormalizeValueTwice | internal/drivers/iotdb/sql.go:140-153 | Normalising a value twice is normalising it once, for every text |
| IotdbInsertLaws.LiteralKeptIff | internal/drivers/iotdb/sql.go:140-153 | A string literal keeps its value if and only if its content has no white space at its ends and does not read as boolean or number |
| IotdbColumns.QualifyPathTwice | internal/drivers/iotdb/server.go:1227-1234 | Qualifying twice is qualifying once, for every prefix and path |
| IotdbColumns.NormalizeColumnTwiceIff | internal/drivers/iotdb/sql.go:132-138 | For every column: normalising twice is normalising once if and only if the name in it - behind the last dot of a root path, otherwise all of it - has no white space and no quoting mark at its ends |
| IotdbColumns.QuotedNameSettles | internal/drivers/iotdb/sql.go:132-138 | A name in quoting marks means the bare name, and one rewrite settles it |
| IotdbColumns.RootPathName | internal/drivers/iotdb/sql.go:132-138 | A bare path from the root comes down to its last node, and one rewrite settles it if and only if that node has no white space and no quoting mark at its ends |
| IotdbColumns.QuotedNodeUnsettled | internal/drivers/iotdb/sql.go:132-138 | What fails, for every path and name: a root path with its last node in quotes keeps the opening mark, which the next rewrite takes off |
| IotdbColumns.QuotedNodeExample | internal/drivers/iotdb/sql.go:132-138 | The smallest such column |
| IotdbColumns.NameIsClosed | internal/drivers/iotdb/sql.go:132-138 | A closed column keeps a closed name, unless it is a root path with quotes, commas or parentheses in it |
| IotdbInsert.NormalizeInsertStatement | internal/drivers/iotdb/sql.go:51-90 | The statement with normalised lists, or unchanged when it does not parse |
| IotdbInsert.NormalizeLists | internal/drivers/iotdb/sql.go:85-88 | The loop that overwrites both lists |
| IotdbInsertLaws.ParsePrinted | internal/drivers/iotdb/sql.go:51-84 | Parsing a printed INSERT recovers table, columns and values in order, without the white space around them, in every letter case and spacing, and ignores whatever follows the first row |
| IotdbInsertTwice.ReadIsClean | internal/drivers/iotdb/sql.go:51-84 | Whatever INSERT is read, from any text: the table has no parenthesis and every part of both lists is one trimmed part with its literals closed |
| IotdbInsertTwice.ReadsBackIff | internal/drivers/iotdb/sql.go:51-90 | For every text that is read: its rewrite reads back as the normalised lists if and only if the shortened names and the values still make two lists - no separator inside a name, parentheses paired over each list |
| IotdbInsertTwice.InsertRewriteTwiceIff | internal/drivers/iotdb/sql.go:51-90 | For every text whose rewrite reads back so: rewriting again changes nothing if and only if every column is settled; a text that is not read stays as it is |
| IotdbInsertTwice.ClosedStayListed | internal/drivers/iotdb/sql.go:51-90 | Parts with paired parentheses and closed literals meet that, unless a path from the root has quotes, commas or parentheses |
| IotdbInsertTwice.CutParenDoesNotReadBack | internal/drivers/iotdb/sql.go:132-138 | What fails: the column `root.f(a.b)` is cut at the dot inside its parentheses, and the outcome does not read back |
| IotdbInsertTwice.QuotedNodeIsRewrittenTwice | internal/drivers/iotdb/sql.go:51-90 | A concrete INSERT that the second rewrite changes again |
| IotdbInsertLaws.FurtherRowsAreDropped | internal/drivers/iotdb/sql.go:75-89 | A statement with further rows is rewritten to the same text as the statement without them |
| IotdbUpdate.ExtractTimestampPredicate | internal/drivers/iotdb/sql.go:155-167 | The first condition that compares the timestamp column, or none, or the panic |
| IotdbUpdate.CollectAssignments | internal/drivers/iotdb/sql.go:112-125 | The loop fails on an item without equals sign and otherwise collects exactly the assignments to other columns, in order |
| IotdbUpdate.NormalizeUpdateStatement | internal/drivers/iotdb/sql.go:92-130 | The whole rewrite: unchanged, an INSERT, or the panic |
| IotdbUpdate.KeywordPlaces | internal/drivers/iotdb/sql.go:97-107 | None of the slices between the key words is ever inverted |
| IotdbUpdateLaws.KeptInOrder | internal/drivers/iotdb/sql.go:114-125 | Each assignment to another column is kept exactly once at the place its predecessors leave it |
| IotdbUpdateLaws.UpdateListsAgree | internal/drivers/iotdb/sql.go:112-129 | For every statement that is rewritten: equally long lists, the timestamp first and nowhere else |
| IotdbUpdateLaws.UpdateBecomesInsert | internal/drivers/iotdb/sql.go:9-15 | A well-formed UPDATE becomes the INSERT of the timestamp and exactly the other assignments in order, or stays itself when there are none; the INSERT rewrite leaves that text alone if and only if every assigned column is settled |
| IotdbUpdateLaws.OtherConditionsAreDropped | internal/drivers/iotdb/sql.go:155-167 | Conditions other than the one on the timestamp do not influence the INSERT |
| IotdbMeaning.InsertMeans | internal/drivers/iotdb/sql.go:75-90 | For every INSERT whose rewrite reads back: the table read from it is the qualified one, and at every place stand the column's name and what the value must become |
| IotdbMeaning.UpdateMeans | internal/drivers/iotdb/sql.go:92-130 | The INSERT read from a rewritten UPDATE names the qualified table, has the timestamp first with what it was compared with, and then every other assignment in its place |
| IotdbMeaning.QualifiedPath | internal/drivers/iotdb/server.go:1227-1234 | A path that is rooted, at or below the prefix stays; any other is the prefix, a dot and itself; so under a prefix it is always rooted or below it |
| IotdbMeaning.NormalizedValue | internal/drivers/iotdb/sql.go:140-153 | Text that is no literal stays; a literal stays one with its content trimmed, unless that reads as a boolean or a number, which it then is |
| IotdbMeaning.SingleQuotesStay | internal/drivers/iotdb/sql.go:336-341 | Unquoting keeps quotes that stand alone |
| IotdbMeaning.StampIs | internal/drivers/iotdb/sql.go:343-345 | White space and semicolons around what the timestamp is compared with go, and nothing else |
| IotdbMeaning.ReadStandsThere | internal/drivers/iotdb/sql.go:51-84 | Conversely to printing: whatever is read of an INSERT stands so in the text, in this order, with paired parentheses |
| IotdbMeaning.OthersStay | internal/drivers/iotdb/sql.go:51-107 | A text that is neither, and an UPDATE without one of its words outside literals, stays as it is |
| IotdbMeaning.UnusableStays | internal/drivers/iotdb/sql.go:108-122 | So does an UPDATE without a condition on the timestamp, or with an item of its SET list that has no equals sign |
| GoServerHandlers.Server.CloseCursor | internal/dbipc/server.go:1986-1998 | The rows are let go and the cursor is done, whether or not closing them failed |
| GoServerHandlers.Server.CloseCursorsForConn | internal/dbipc/server.go:1956-1965 | In whatever order the table is walked: the connection's cursors are gone, all their rows closed, the others untouched, success exactly when no close failed |
| GoServerHandlers.Server.RollbackTxsForConn | internal/dbipc/server.go:1967-1976 | The same for transactions |
| GoServerHandlers.Server.DropImportsForConn | internal/dbipc/server.go:1978-1984 | The same for imports |
| GoServerHandlers.Server.TxForRequest | internal/dbipc/server.go:730-741 | A transaction is handed out only to its own connection |
| GoServerHandlers.Server.HandleConnTest | internal/dbipc/server.go:251-277 | The test connection is closed on every path |
| GoServerHandlers.Server.HandleConnOpen | internal/dbipc/server.go:279-316 | A connection whose ping fails is closed and not entered |
| GoServerHandlers.Server.HandleConnClose | internal/dbipc/server.go:318-339 | Everything of the connection is closed and removed, the outcome reported |
| GoServerHandlers.Server.HandleQueryStart | internal/dbipc/server.go:373-421 | Runs on the connection or its own transaction; a cursor only with rows |
| GoServerHandlers.Server.HandleCursorFetch | internal/dbipc/server.go:423-455 | The last page closes the rows; when that fails they stay with the cursor, which is done |
| GoServerHandlers.Server.HandleCursorClose | internal/dbipc/server.go:457-472 | A cursor whose close fails stays in the table without rows |
| GoServerHandlers.Server.HandleCursorCancel | internal/dbipc/server.go:474-490 | Rows closed, cursor kept |
| GoServerHandlers.Server.HandleExecRun | internal/dbipc/server.go:492-529 | Runs on the connection or its own transaction |
| GoServerHandlers.Server.RunBatch | internal/dbipc/server.go:556-600 | The statement loop with stop-on-error |
| GoServerHandlers.Server.HandleExecBatch | internal/dbipc/server.go:531-620 | The batch's own transaction is always ended: committed when no statement failed, rolled back otherwise |
| GoServerHandlers.Server.HandleTxBegin | internal/dbipc/server.go:622-643 | A new id for the new transaction |
| GoServerHandlers.Server.HandleTxCommit | internal/dbipc/server.go:645-661 | A failed commit keeps the transaction |
| GoServerHandlers.Server.HandleTxRollback | internal/dbipc/server.go:663-686 | A failed rollback keeps it, a savepoint does not end it |
| GoServerHandlers.Server.HandleTxSavepoint | internal/dbipc/server.go:688-707 | SAVEPOINT runs on the named transaction, which stays open whatever the answer |
| GoServerHandlers.Server.HandleTxRelease | internal/dbipc/server.go:709-728 | RELEASE SAVEPOINT likewise |
| GoServerHandlers.Server.HandleDataImportBegin | internal/dbipc/server.go:960-992 | A new id for a known format on a live connection |
| GoServerHandlers.Server.CloseAll | internal/dbipc/server.go:1933-1954 | Five tables emptied, every close attempted whatever the ones before returned |
| GoServerLaws.StepKeepsOwned | internal/dbipc/server.go:251-741 | Every request, whatever the library answers, keeps ownership |
| GoServerLaws.OwnedAlways | internal/dbipc/server.go:279-686 | After every run: cursors, transactions and imports name live connections, every handle ever opened is in a table or was closed, no two cursors share rows, and a cursor that is not done has rows nobody closed |
| GoServerLaws.GoneMeansClosed | internal/dbipc/server.go:318-339 | Once a connection is gone, everything ever opened for it was closed |
| GoServerLaws.IdsNeverReused | internal/dbipc/server.go:306-307 | No id is issued twice in a run |
| GoServerLaws.SqlStaysHome | internal/dbipc/server.go:730-741 | SQL runs only on a handle that was opened for the connection the request speaks for - the connection it names, or that of the import or transaction it names, savepoint requests included |
| GoServerAnswers.SqlRunsWhereAsked | internal/dbipc/server.go:373-529 | For every request: SQL runs exactly on the handle in the table for the transaction it names, if that is the connection's, and on the connection's own handle when it names none; on no other, and for no other request |
| GoServerAnswers.RunsInsideItsTransaction | internal/dbipc/server.go:492-529 | Over every run: a statement that names a transaction runs on the very handle the library opened when that transaction began on that connection |
| GoServerAnswers.SuccessIsReported | internal/dbipc/server.go:251-741 | Success is reported exactly when the server knows what the request names and nothing it had to do failed |
| GoServerAnswers.CommittedIff | internal/dbipc/server.go:531-686 | Over every run: a transaction is committed if and only if a request asked for it - its own commit, or a batch in which no statement failed |
| GoServerAnswers.BatchReports | internal/dbipc/server.go:556-600 | A batch reports exactly the statements that failed; with stop-on-error only the first, which ends it |
| GoServerAnswers.EntriesAreIssued | internal/dbipc/server.go:279-316 | Every transaction, connection and import in the tables is the one its id was issued for, with the handle opened then |
| GoServerAnswers.CursorsAreIssued | internal/dbipc/server.go:373-421 | So is every cursor, with its connection and rows |
| GoServerAnswers.IssuedIsThere | internal/dbipc/server.go:622-643 | An id is answered exactly by the successful requests that make an entry, and the entry is there |
| GoServerAnswers.EntriesLeaveWhenEnded | internal/dbipc/server.go:457-686 | Entries leave exactly with their successful commit, rollback or close, with their connection, or at shutdown |
| GoServerAnswers.CursorsCountRows | internal/dbipc/server.go:423-490 | A cursor counts exactly the rows of its pages, and is done exactly when a last page, a cancel or a failed close ended it |
| GoServerAnswers.StreamFollows | internal/dbipc/server.go:918-958 | An export opens its stream with its bytes; a close or shutdown ends it; nothing else but a read touches it |
| GoServerAnswers.StreamLasts | internal/dbipc/server.go:1073-1094 | Reads of any sizes, 64 KiB by default, take their bytes off, and the one that leaves none forgets the stream |
| GoServerLaws.CloseIsComplete | internal/dbipc/server.go:318-339 | Closing a connection closes exactly what was opened for it, touches no other entry, and reports success exactly when no close failed |
| GoServerLaws.ShutdownEmptiesAll | internal/dbipc/server.go:1933-1954 | Shutdown empties every table and leaves no handle unclosed, even when closes fail |
| Cursors.GoCursor.FetchRows | internal/dbipc/query.go:59-85 | The loop delivers the next rows up to n or the maximum, and says last exactly when it saw the end or the maximum |
| Cursors.GoCursor.HandleCursorFetch | internal/dbipc/server.go:423-455 | The fetch of the generic server, 500 rows by default |
| Cursors.IotdbCursor.HandleCursorFetch | internal/drivers/iotdb/server.go:339-384 | The IoTDB fetch, which notices the end only inside its loop |
| Cursors.DuckDbCursor.FetchPage | extensions/ipc/duckdb/src/handlers.rs:1876-1915 | The DuckDB fetch by LIMIT and OFFSET; a request for no rows delivers none |
| Cursors.DuckDbCursor.Advance | extensions/ipc/duckdb/src/state.rs:75-83 | The position moves by the rows fetched; a short page or the maximum ends the cursor |
| Cursors.OpenGaussCursor.FetchPage | extensions/ipc/opengauss/src/state.rs:27-46 | The openGauss fetch from a vector, between 1 and 10000 rows |
| Cursors.FetchRefines | internal/dbipc/query.go:59-85 | One fetch of any of the four delivers the next rows in order and, if it is not done, exactly as many as asked |
| Cursors.PagesArePrefix | internal/dbipc/query.go:59-85 | For any page sizes the pages of all four join to a prefix of the wanted rows, and done means all of them |
| Cursors.FetchesReachDone | internal/dbipc/query.go:59-85 | One fetch of at least one row more than there are rows always reaches done |
| Cursors.StallsIff | extensions/ipc/duckdb/src/handlers.rs:1899-1915 | A fetch makes no progress if and only if it is DuckDB asked for no rows |
| Cursors.PageIsAsAsked | extensions/ipc/duckdb/src/handlers.rs:1899-1915 | A page holds exactly the rows asked for - with each driver's default, minimum and maximum - or all that are left, and each driver is done exactly when its code notices the end |
| MongoBlob.PackDocuments | drivers/mongodb-driver/src/modern.rs:187-194 | The loop packs each document behind its length |
| MongoBlob.Blob.Read | drivers/mongodb-driver/src/common.rs:28-45 | The next chunk, the new offset, done at the end |
| MongoBlob.LengthReadsBack | drivers/mongodb-driver/src/modern.rs:191 | The four bytes read back as the length modulo 2^32 |
| MongoBlob.UnpackingIff | drivers/mongodb-driver/src/modern.rs:187-194 | Splitting the packed buffer gives exactly the documents if and only if each is shorter than 2^32 bytes |
| MongoBlob.BlobRoundTrip | drivers/mongodb-driver/src/common.rs:28-45 | Packed, read in chunks of any sizes until done, and split: exactly the documents in order |
| MongoBlob.ReadsComeToAnEnd | drivers/mongodb-driver/src/common.rs:36-42 | Reads of at least one byte reach the end |
| MongoBlob.ReadsTakeAll | drivers/mongodb-driver/src/common.rs:36-42 | Every read hands out what was asked for as long as there is as much, and is done exactly when nothing is left |
| TimeText.SplitRecombines | extensions/ipc/duckdb/src/value.rs:70-81 | For every unit and value the parts recombine and the nanoseconds stay below one second |
| TimeText.AppendFraction | extensions/ipc/duckdb/src/value.rs:111-122 | The loop appends the nine digits without trailing zeros |
| TimeText.FormatTime64 | extensions/ipc/duckdb/src/value.rs:99-109 | The text of a time of day |
| TimeText.TimeReadsBackIff | extensions/ipc/duckdb/src/value.rs:99-122 | For every value, negative ones included: the text reads back as the time of day to the nanosecond, if and only if it is not a negative count of nanoseconds whose last second has more than 999999000 of them |
| TimeText.BeforeMidnightIsLate | extensions/ipc/duckdb/src/value.rs:99-122 | The smallest failing input: one nanosecond before midnight is printed as almost a second after it |
| TimeText.TimeReadsBack | extensions/ipc/duckdb/src/value.rs:99-122 | Every time within a day reads back from its text to the nanosecond, in every unit |
| TimeText.TextIsATime | extensions/ipc/duckdb/src/value.rs:99-122 | The text is always hours, minutes and seconds in two digits between colons, and at most nine digits behind a point that do not end in zero |
| RedisPubSub.EventStream.Publish | extensions/ipc/redis/src/main.rs:287-303 | Run alone, the task takes the step of the failed or successful send and, after a failed one, the step of the count |
| RedisPubSub.EventStream.ReadEvent | extensions/ipc/redis/src/main.rs:353-383 | Run alone, a read takes the steps of the reader: the oldest messages in order, at most as many as asked, and the count of drops, which starts again |
| RedisPubSub.NothingUnaccounted | extensions/ipc/redis/src/main.rs:249-317 | Under every interleaving of task and reader, the failed send and its count being two steps: published equals delivered, in hand, queued, reported, counted and the one about to be counted; kept messages stay in order; the queue never exceeds its capacity; nothing is dropped before it was full |
| RedisPubSub.DrainedIsCompleteIff | extensions/ipc/redis/src/main.rs:353-383 | A drained reader has the kept messages in order; with those reported as dropped they are all, if and only if the task is not between a failed send and its count |
| RedisPubSub.RaceMissesDrop | extensions/ipc/redis/src/main.rs:301-303 | The interleaving in which a read drains the queue before the drop is counted |
| RedisPubSub.MissedDropIsReported | extensions/ipc/redis/src/main.rs:353-383 | Once counted, such a drop is reported by the next read |
| RedisPubSub.CapacityIs | extensions/ipc/redis/src/main.rs:258 | A stream holds as many messages as were asked for, between 1 and 1024, and 128 by default |
| RedisPubSub.ReadTakes | extensions/ipc/redis/src/main.rs:353-383 | Alone, a read takes all that is queued up to what it asked for, a waiting one at least one |

## Left out

- Text is ASCII: Unicode white space, case folding and UTF-8 encoding are not modelled, and one `char` stands for one byte.
- Integers are unbounded: u64 and u32 counters that wrap or saturate, and the 64-bit range of time values, are not modelled.
- Locks, condition variables and threads appear as interleaved steps; fairness and memory order do not. The mailbox has one receiver.
- The remote-desktop receiver is outside the repository: it is taken to ignore a delta whose size is not the canvas's. Pixel conversion, frame pacing and the clipboard are not modelled.
- ALTER statements address the table under the name of the target; renaming the table itself, changes of type, default or nullability, and case-insensitive DuckDB identifiers are not modelled.
- The Go variant of the ALTER builder (`internal/dbipc/ddl.go`) is left out; it does not exclude rename targets from its ADD step.
- DuckDB CSV options of more than one character, and the NDJSON format, are not modelled.
- ExportStream.ExportReadsBack: rows keep their order between two page queries, which the database promises only for ordered queries.
- DuckDbSession.TransactionAgreement: user SQL is free of transaction control and a failed statement does not abort a transaction; cursors and streams of a connection are not part of this state.
- The statements of an import, its column lists and its failure messages are reduced to one outcome a row.
- IoTDB numbers: `isInt` and `isFloat` are an arbitrary predicate whose accepted texts contain no quote, comma or parenthesis.
- IotdbInsertTwice.InsertRewriteTwiceIff: what the second rewrite does when the first one's outcome does not read back as its lists (`ReadsBackIff`) is not said; the prefix of the connection has no parenthesis.
- IotdbUpdateLaws.UpdateBecomesInsert: of an UPDATE that puts a key word inside a quoted name, only the misreading is stated (`PartsAreReadIff`), not what it is rewritten to; parts with a comma or an unpaired parenthesis outside a literal are left out.
- DuckDbDdl.FittingRenamesAccepted: legality is about column names; that DuckDB refuses constraints such as NOT NULL in ADD COLUMN is not modelled.
- IotdbInsertLaws.FurtherRowsAreDropped: speaks of rows after a comma and a blank; `ParsePrinted` covers any tail.
- The FROM and DATABASE rewrites of IoTDB are left out; the search for `from ` is not quote-aware, so no meaning is claimed for arbitrary text.
- GoServerHandlers.Server.HandleExecBatch: the result of a statement is reduced to whether it failed; affected rows and error texts are left out.
- Go server: `ImportChunk`, `DataExport` and `StreamClose` are steps of the model without a method of their own; the options of an export are taken as parsed.
- Go server: parameter decoding, metadata queries and error texts are left out; ids are numbers, printed into their texts by the server.
- GoServerHandlers.Server.HandleTxRollback: an attempted commit or rollback counts as closing the transaction's handle, as the library documents.
- Cursors.FetchRefines: errors from the database while fetching are not modelled; a fetch returns its rows.
- TimeText.FormatTime64: dates and timestamps, which a library formats, are not modelled.
- The protocol crate is not part of this model: the effective byte and event limits of reads are parameters.
- Redis commands, pipelines, retries and subscriptions are left out; the queue of a stream is modelled from its opening to its last read.
